# Network Recovery Planner: a verified model

The planner takes a description of a network fabric, evidence about its state, the authority
it acts under and a policy, and returns either the best recovery plan, a proof that there is
none, or the reason why it can say neither. Plans are kept in a durable store that survives
crashes, and served by a pool of workers. This project states what each of these parts promises
and proves it for every input, every run and every interleaving. Check it with
`dafny verify dfyconfig.toml`.

**One meaning, three programs.** `Dynamics` says once what a plan is: which action sequences are
admissible from an initial state, what they cost, when the goals are met, and what it means to be
the optimum. The source implements that meaning three times: in the planner's search
(`Transition`, `Search`, `Replaying`, `Planner`), in the independent validator (`Validate`), and in
the brute-force reference solver (`Reference`, `Enumeration`). Each is modelled as it runs, with its
own bookkeeping (decaying hold profiles, hold histories, compiled indices, sticky overflow marks),
and each is proved to compute that one meaning. `SearchTheory` holds the invariant of the
uniform-cost search, and `Crowding` says when it may give up; `Differential` puts search and
enumeration side by side; `Planner.PlanAndValidate` shows that what the planner produces, the validator
accepts, `Certificates` says which of its certificates are accepted, and `Completions` what they say about
values that no evidence has established (`Unestablished` shows where they say nothing).

**Static proofs.** `Cycle` and `Bound` are the two shortcuts to a certificate, `Trimming` says what a
definition with cycles still means. `Safety`, `Overspending` and `Overlapping` say what every plan
keeps, and where unchecked 32-bit arithmetic does not; `Overpricing` where costs leave 64 bits.

**Evidence.** `Reconcile` and `InitialStates` compare the ways in which the three programs turn facts
into an initial state, and say exactly when they agree.

**The store.** `Crc`, `Framing`, `Recovery`, `Incarnations` and `Store` go from the checksum to whole
runs of a disk with crashes between any two steps; `Sessions` are those in which every opening writes what it has to first,
`Lockout` says which of them end in one that cannot be opened again, and `Reopening` shows it with the
store's own operations.

**Messages and workers.** `Codecs`, `Formats`, `Reading`, `Decoding` and `Encoding` cover the canonical
byte format of requests; `Service` and `Queue` the order of planning, recording and delivering, and the shutdown.

## Hypotheses

The stronger statements need conditions that the code does not enforce. They are explicit:

- the definition passes `validate_definition` (`Definition.ValidDefinition`);
- no action lists a resource twice, and none both uses a consumable and sets what is available of it
  (`Safety.SingleUses`);
- no two admissible facts about one key carry one sequence and different values
  (`Reconcile.TieConsistent`);
- capacities are below 2^31, and costs, durations and shortfalls add up within 64 bits
  (`Regularity.ModestCapacities`, `Accounting.AccountingFits`). `Regularity.Regular` bundles these
  with the two conditions on definitions. A plan that the planner reports is accepted without
  either of these two (`Planner.PlanAndValidate`);
- link, node and restoration goals have a value of at most one (`Planner.Comparable`).

Where a condition fails, a lemma with a concrete input shows what goes wrong, and another says
for which inputs it does not:

- a resource used twice, or set and then used: `Overspending.DoubleUseWraps`,
  `Overspending.SetThenSpendWraps`, and `Overspending.SpendingIsExactIff`;
- evidence with ties: `Reconcile.OldFactSettlesDispute`, and `Reconcile.PlannerAgreesIff`,
  `Reconcile.FinalTableAgreesIff`; with inadmissible rivals: `InitialStates.StaleRivalHides`, and
  `InitialStates.ReferenceKnowsIff`;
- capacities from 2^31 on: `Overlapping.WrappedSumPasses`, and `Histories.WrapAgreesBelowHalf`;
- costs that leave 64 bits, at which the search reports a limit: `Overpricing.EveryPlanOverflows`, and
  `Accounting.CostFits`;
- goal values above one: `Bound.HighValueIsMisjudged`, and `Bound.FlagBoundDecides`;
- cycles: `Cycle.CycleIsNotInfeasible`, and `Trimming.CycleVerdict`;
- accepted certificates that are wrong: `Certificates.ForgedIsAccepted`,
  `Certificates.ForgedSearchIsAccepted`, and `Certificates.AcceptsBoundIff`,
  `Certificates.BoundBetweenIsRight`;
- certificates and values not established: `Unestablished.ConsumablesMislead`,
  `Unestablished.RestorationMisleads`, `Unestablished.FlooredServicesMislead`, and
  `Completions.ExhaustiveForEveryCompletion`;
- large files: `Lockout.DefaultsLockOut`, `Lockout.WrappedLengthLocksOut`, and `Lockout.LocksOutIff`,
  `Recovery.RecoveryIsLedger`;
- long fence reasons: `Lockout.LongFenceIsWritten`, and `Incarnations.FenceIsRead`.

## Where the code and its comments part

- The comment above the cycle search says that a cycle means no execution order exists. A plan that keeps
  away from the cycle may exist (`Cycle.CycleIsNotInfeasible`); what is true is that no action on a
  cycle ever runs, and that infeasibility is to be judged without them (`Trimming.CycleVerdict`).
- The exhaustive proof of infeasibility is withheld while a subject of a precondition or a goal is open,
  and not while a consumable that an action uses, a restoration that a goal awaits or a floored service
  that an action shifts is (`Unestablished`). The two static proofs are not withheld at all
  (`Planner.Decisive` makes the difference explicit), and a plan that is found is reported whatever is open.
- A plan whose services keep their total floor gap may lower one service below its floor while it raises
  another. Each floor is kept only from a start without any gap (`Safety.FloorsArePreserved`).
- The certificate check is said to derive the bound of a goal anew. It compares what is stated with the
  structural maximum of a service, or with zero, and never with the goal value
  (`Certificates.ForgedIsAccepted`).
- The store refuses to open files and fence reasons that it was willing to write
  (`Lockout.LocksOutIff`, `Lockout.LongFenceLocksOut`), and a full store can never be opened again
  (`Lockout.FullNeverOpens`).

## Model

| member | source | states |
|---|---|---|
| `Lex.Compare` | src/objective.cpp:51-68 | the three-way scans of objectives and encodings decide the lexicographic order |
| `Lex.LessTotal` | src/objective.cpp:59-68 | two different encodings are always ordered, so a tie in the order is an equality |
| `Objectives.AddChecked` | src/objective.cpp:23-32 | the sum of two objectives exactly when no component leaves 64 bits |
| `Objectives.ScoredLess` | src/planner.cpp:984-993 | the order of the frontier: objective first, then encoding |
| `Objectives.BetterTransitive` | src/planner.cpp:984-993 | that order is transitive |
| `Objectives.BetterTotal` | src/planner.cpp:984-993 | and total: only equal scores are unordered |
| `Objectives.ExtensionIsWorse` | src/planner.cpp:535-546 | prolonging a sequence never makes it better |
| `Objectives.ExtensionPreservesOrder` | src/planner.cpp:547-559 | the better of two prefixes of equal length stays better under every common continuation |
| `Domain.IndexOf` | src/planner.cpp:29-36 | the binary search over sorted identities finds what a linear lookup finds |
| `Domain.BuildTable` | src/validate.cpp:44-72 | the identity tables of the checkers answer as the linear lookup does |
| `Definition.ValidateDefinition` | src/domain.cpp:473-687 | accepts exactly the structurally valid definitions |
| `Definition.CheckAction` | src/domain.cpp:559-671 | accepts exactly the actions whose identities, subjects, values and limits are in order |
| `Definition.CheckGoal` | src/domain.cpp:672-684 | accepts exactly the well-typed goals |
| `Holds.ReplayIsExecute` | src/planner.cpp:745-971 | the planner's incremental transition with decaying holds admits exactly the admissible sequences, with the same states and costs |
| `Holds.ProfileStep` | src/planner.cpp:913-938 | after any sequence the decaying profile is exactly the past uses still open, each with the steps it has left |
| `Holds.SortedUnique` | src/planner.cpp:930-938 | a sorted profile is determined by the holds in it, whatever order they came in |
| `Keys.ComputeKey` | src/planner.cpp:649-659 | writes the state and then the holds, field by field |
| `Keys.KeyInjective` | src/domain.cpp:408-430 | two configurations share a key only when they are the same configuration |
| `Problems.SameStateSameLength` | src/planner.cpp:547-568 | sequences that reach the same state have the same length, so dominated encodings are of equal length |
| `Problems.LengthBound` | src/planner.cpp:474-475 | no admissible sequence is longer than the effective step bound allows |
| `SearchTheory.ScoresDistinct` | src/planner.cpp:560-568 | no two nodes of the arena have the same objective and encoding |
| `SearchTheory.ChildNeverTies` | src/planner.cpp:562-562 | no insertion into the frontier ever meets an equal entry |
| `SearchTheory.ClosedKeepsKey` | src/planner.cpp:547-562 | an expanded node is never superseded |
| `SearchTheory.DominatedChild` | src/planner.cpp:547-559 | dropping a child that is not better loses nothing |
| `SearchTheory.AddChild` | src/planner.cpp:560-568 | filing and queueing a better child keeps the whole search invariant |
| `SearchTheory.Account` | src/planner.cpp:486-580 | every admissible sequence within the bound is represented by a waiting or an expanded node that is at least as good |
| `SearchTheory.FirstGoalIsOptimal` | src/planner.cpp:497-501 | the first waiting node that meets the goals is the minimum over all plans, by objective and then encoding |
| `SearchTheory.EmptyFrontierIsProof` | src/planner.cpp:579-580 | an emptied frontier proves that no plan exists |
| `Crowding.FirstLeads` | src/planner.cpp:486-501 | until a plan is found, the first waiting node is at least as good as every plan |
| `Crowding.TallyGrows` | src/planner.cpp:511-534 | no sequence is generated twice |
| `Crowding.TooManyExpanded` | src/planner.cpp:501-505 | a search stopped by the limit on expansions had more sequences competing with the optimum than the limit |
| `Crowding.TooManyGenerated` | src/planner.cpp:525-529 | the same for the limit on generated states |
| `Crowding.TooManyWaiting` | src/planner.cpp:572-576 | the same for the limit on the frontier |
| `Crowding.BudgetsSuffice` | src/planner.cpp:478-581 | budgets that are at least the number of admissible sequences within the step bound suffice |
| `Transition.Compile` | src/planner.cpp:334-367 | the compiled indices of dependencies, resources and group members are those of the definition |
| `Transition.CompileBound` | src/planner.cpp:341-348 | the step bound is the sum of the occurrence limits, or is marked as overflowing |
| `Transition.DependenciesHold` | src/planner.cpp:760-767 | decides whether every dependency of an action has run often enough |
| `Transition.GroupsOpen` | src/planner.cpp:768-780 | decides whether every exclusion group of an action has room |
| `Transition.EstablishPreconditions` | src/planner.cpp:781-805 | decides the preconditions in order and collects the evidence behind them |
| `Transition.ResourcesFree` | src/planner.cpp:807-832 | decides the resource guards from the decaying profile |
| `Transition.RunEffects` | src/planner.cpp:834-898 | applies the effects in order, refusing what leaves its range |
| `Transition.SpendUnits` | src/planner.cpp:900-905 | spends consumables in unchecked 32-bit arithmetic, as specified |
| `Transition.CarryHolds` | src/planner.cpp:913-938 | ages the profile, adds the new holds and restores its order |
| `Transition.Apply` | src/planner.cpp:745-971 | one transition: admissible exactly when the specification steps, with the same state, holds and cost |
| `Search.Search.EncodingAt` | src/planner.cpp:661-669 | follows the parents of a node back and yields the encoding of its sequence |
| `Search.Search.ChildIsBetter` | src/planner.cpp:547-559 | the dominance test decides the order of scores |
| `Search.Search.CountChild` | src/planner.cpp:525-530 | counts one more generated sequence, or stops because there are more competing sequences than may be generated |
| `Search.Search.CloseFirst` | src/planner.cpp:506-577 | expands one node, and stops only at a limit that was too low or at an overflow |
| `Search.Search.TryAction` | src/planner.cpp:511-576 | one action of an expansion keeps the invariant or stops at a limit |
| `Search.Search.Turn` | src/planner.cpp:486-578 | one turn of the loop keeps the invariant, or ends with the optimum or at a limit |
| `Search.Search.Run` | src/planner.cpp:478-581 | terminates; a plan found is admissible, meets every goal within the bound and is the optimum; an emptied frontier means there is no plan and no limit was hit; it gives up only at a limit that more sequences compete for than it allows, or when what a competing sequence costs leaves 64 bits; the states generated are counted exactly |
| `Search.GoalsSatisfied` | src/planner.cpp:671-695 | decides whether every goal is met |
| `Accounting.CostIsWeightedCount` | src/planner.cpp:940-965 | the additive objective components are the execution counts weighted by the costs of the actions |
| `Accounting.OccurrencesBounded` | src/planner.cpp:754-758 | no action ever runs more often than it may |
| `Accounting.TickIsDuration` | src/planner.cpp:948-952 | the tick is the start tick plus the durations executed |
| `Accounting.AdmissibleLength` | src/planner.cpp:474-475 | the length of an admissible sequence is the number of executions it counts |
| `Accounting.CostFits` | src/planner.cpp:535-541 | under a static condition on the definition no objective component leaves 64 bits |
| `Accounting.TickFits` | src/planner.cpp:948-952 | and no tick does |
| `Overpricing.EveryPlanOverflows` | src/planner.cpp:535-541 | a valid definition has a plan, but no plan of it has a cost that fits 64 bits |
| `Safety.FloorGapNeverGrows` | src/planner.cpp:907-910 | the total floor gap never grows along an admissible sequence |
| `Safety.FloorsArePreserved` | src/planner.cpp:392-407 | starting without a gap, every floored service stays known and at its floor |
| `Safety.KnownMarksGrow` | src/planner.cpp:834-898 | what is known stays known |
| `Safety.RangesArePreserved` | src/planner.cpp:834-905 | reachability and availability stay in range when no action lists or overwrites a consumable twice |
| `Safety.ConsumablesAreConserved` | src/planner.cpp:900-905 | what has been taken of a consumable plus what is left is what there was |
| `Safety.HeldWithinCapacity` | src/planner.cpp:821-830 | units held of a reusable resource never exceed its capacity |
| `Safety.DependenciesWereMet` | src/planner.cpp:760-767 | whenever an action runs, its dependencies have run often enough |
| `Safety.GroupsStayWithinBounds` | src/planner.cpp:768-780 | no exclusion group exceeds its maximum |
| `Overspending.ConsumeWraps` | src/planner.cpp:900-905 | without any condition, spending leaves the difference modulo 2^32 |
| `Overspending.SpendingIsExactIff` | src/planner.cpp:811-820 | spending is exact if and only if the uses of the resource together are covered, which the guard checks only one by one |
| `Overspending.DoubleUseWraps` | src/planner.cpp:811-905 | an action of a valid definition that lists a consumable twice is admitted with 5 of 6 units and leaves 2^32 - 1 |
| `Overspending.SetThenSpendWraps` | src/planner.cpp:811-905 | an action of a valid definition that sets what is available of a consumable to zero and then uses three units of it leaves 2^32 - 3 |
| `Histories.OverlapIsHeld` | src/validate.cpp:653-661 | the part of the recorded history that overlaps a step is exactly what is held then |
| `Histories.SumOverlap` | src/reference_solver.cpp:277-283 | sums a use and its overlap in 32-bit arithmetic |
| `Histories.WrapAgreesBelowHalf` | src/validate.cpp:653-665 | the 32-bit comparison decides as the exact one does if and only if the capacity is below 2^31 |
| `Overlapping.PassesIsFree` | src/validate.cpp:635-666 | with capacities below 2^31 the 32-bit guard lets a use pass exactly when it is free |
| `Overlapping.FreePasses` | src/validate.cpp:653-665 | whatever the capacities, the 32-bit guard lets every use pass that is free |
| `Overlapping.WrappedSumPasses` | src/validate.cpp:653-665 | in a valid definition with a capacity of 2^31, two overlapping uses are no plan, but the 32-bit guard lets the second one pass |
| `Untimed.StepUntimed` | src/reference_solver.cpp:203-395 | a simulation that keeps no tick steps as the timed one does while the tick fits |
| `Reference.Simulate` | src/reference_solver.cpp:231-369 | one step of the re-simulation is admissible exactly when the specification steps |
| `Reference.UseFits` | src/reference_solver.cpp:269-286 | one use against the state and the recorded history, in 32 bits, for every capacity |
| `Reference.CheckAuthority` | src/reference_solver.cpp:216-222 | decides whether every action's level is granted |
| `Reference.EvaluateSequence` | src/reference_solver.cpp:203-395 | an explicit sequence is valid exactly when it is a plan, with the specified objective |
| `Enumeration.AdmissibleIsBounded` | src/reference_solver.cpp:457-474 | every admissible sequence is occurrence-bounded, so the enumeration can meet it |
| `Enumeration.Enumerator.Visit` | src/reference_solver.cpp:439-455 | examines one sequence and keeps it exactly when it is the best so far |
| `Enumeration.Enumerator.Descend` | src/reference_solver.cpp:457-474 | visits every occurrence-bounded continuation exactly once, restoring the current sequence and its counts |
| `Enumeration.OccurrenceTotal` | src/reference_solver.cpp:416-422 | the saturating sum of the occurrence limits |
| `Enumeration.FullyEnumerated` | src/reference_solver.cpp:404-483 | what has been examined is every bounded sequence up to the depth |
| `Enumeration.Solve` | src/reference_solver.cpp:404-483 | a completed enumeration has examined each bounded sequence once and holds the minimum over all plans, or there is none; it hits a limit only when the depth is beyond 12 or there are more bounded sequences than may be examined |
| `Differential.FastRefinesSlow` | tests/test_differential.cpp:36-65 | whenever the enumeration completes, the search's plan and its objective and encoding are the reference's, and one finds nothing exactly when the other does |
| `Differential.NothingOverflows` | src/planner.cpp:535-541 | under the static condition the search never reports an overflow |
| `Differential.BoundedSuffices` | src/planner.cpp:474-581 | budgets that are at least the number of occurrence-bounded sequences within the step bound rule out that the search gives up |
| `Differential.Compare` | tests/test_differential.cpp:24-66 | running both solvers on one problem never disagrees, and neither gives up without need |
| `Reconcile.Reconciler.Ingest` | src/planner.cpp:147-214 | one more fact is folded into the table entry of its key |
| `Reconcile.EstablishedIff` | src/validate.cpp:255-322 | a value is established exactly when some admissible fact carries it at the greatest admissible sequence and no other value is there; nothing is established exactly when there is no fact or two values share that sequence |
| `Reconcile.PlannerAgreesIff` | src/planner.cpp:181-203 | the planner's table follows the evidence after every prefix if and only if no later admissible fact at or below a disputed sequence settles the dispute |
| `Reconcile.TableRemembers` | src/planner.cpp:147-214 | whatever the evidence, the table holds what the facts since the last settled dispute establish |
| `Reconcile.FinalTableAgreesIff` | src/planner.cpp:147-214 | the table that planning goes on with holds what all the facts establish if and only if their newest carry the value that those since the last settled dispute establish, or these establish nothing and the newest disagree |
| `Reconcile.ConsistentIsUndisputed` | src/planner.cpp:181-203 | tie-consistent evidence meets that condition in every order |
| `Reconcile.ConsistentAgrees` | src/planner.cpp:147-214 | under tie-consistent evidence the table holds the established value |
| `Reconcile.OldFactSettlesDispute` | src/planner.cpp:181-203 | an older third observation makes the planner resolve a subject that is in dispute |
| `InitialStates.ReflectsUnique` | src/planner.cpp:272-320 | the known values determine the state |
| `InitialStates.Materialise` | src/planner.cpp:272-320 | the state reflects the table, whatever order its entries come in |
| `InitialStates.Scan` | src/validate.cpp:255-322 | the validator's fold finds what the facts of one subject establish, in every order |
| `InitialStates.ReconcileFacts` | src/validate.cpp:212-341 | the validator's initial state reflects what the facts establish |
| `InitialStates.CheckRivals` | src/reference_solver.cpp:125-132 | decides whether another usable fact disputes or supersedes this one |
| `InitialStates.ReferenceKnowsIff` | src/reference_solver.cpp:116-162 | what the reference solver knows is established, and everything established is known to it if and only if no unusable fact of the same key rivals it |
| `InitialStates.StaleRivalHides` | src/reference_solver.cpp:125-132 | an inadmissible newer observation makes the reference solver forget an established link |
| `InitialStates.DeriveInitial` | src/reference_solver.cpp:99-164 | the reference solver's initial state reflects what it knows |
| `InitialStates.ServiceStartsInRange` | src/planner.cpp:216-248 | every service starts within its structural maximum |
| `InitialStates.TableIsEstablished` | src/planner.cpp:147-214 | with tie-consistent evidence the planner's table holds exactly the established values |
| `InitialStates.OneInitialState` | src/validate.cpp:212-341 | all three programs start from one state when the evidence is tie-consistent and unrivalled |
| `Validate.CheckBinding` | src/validate.cpp:403-453 | no finding exactly when the plan names its request and carries all the digests |
| `Validate.DeriveSupport` | src/validate.cpp:548-576 | derives the evidence binding of a precondition anew from the facts |
| `Validate.CheckPreconditions` | src/validate.cpp:534-581 | no finding exactly when the preconditions hold, with the evidence to state |
| `Validate.CheckUses` | src/validate.cpp:635-666 | no finding exactly when every use passes the 32-bit guard; and, from an exact history with capacities below 2^31, exactly when the uses fit |
| `Validate.ReadyIsAffordable` | src/validate.cpp:735-747 | the underflow finding never fires on a step that the earlier checks let pass |
| `Validate.CheckStep` | src/validate.cpp:473-782 | for every definition: a step that succeeds, uses no resource twice and keeps the cost within 64 bits gets no finding; when all sums fit, no finding exactly when the step is what the specification does there; the records are carried past it either way |
| `Validate.CheckSteps` | src/validate.cpp:464-823 | for every definition: steps that carry out a plan with the stated objective and use no resource twice get no finding; when all sums fit, no finding exactly when they carry out a plan |
| `Validate.ValidatePlan` | src/validate.cpp:403-825 | for every request: a plan that is bound to it and carries out a plan of it gets no finding when no action uses a resource twice; when all sums fit, no finding if and only if it is and does |
| `Cycle.ListSuccessors` | src/planner.cpp:1007-1014 | the successor lists are exactly the dependency relation |
| `Cycle.FindCycle` | src/planner.cpp:1004-1052 | the iterative three-colour search finds a closed walk if and only if the dependency relation has a cycle |
| `Cycle.CheckCycle` | src/validate.cpp:853-885 | accepts exactly the closed walks of the definition's dependencies |
| `Cycle.FoundCycleIsCertified` | src/planner.cpp:1030-1048 | what the search reports is accepted by the validator |
| `Cycle.CertifiedIffCyclic` | src/validate.cpp:853-885 | an acceptable certificate exists if and only if there is a cycle |
| `Cycle.CycleNeverRuns` | src/planner.cpp:760-767 | no action on a cycle occurs in any admissible sequence |
| `Cycle.CycleIsNotInfeasible` | src/planner.cpp:1404-1420 | a valid definition with a cycle has a plan |
| `Trimming.CyclesAreIdle` | src/planner.cpp:745-767 | every sequence runs in a definition with cycles as it runs without the actions on them, to the same state and cost |
| `Trimming.CyclicPlans` | src/planner.cpp:1404-1420 | the plans of a definition with cycles are exactly the plans without the actions on them, with the same scores; and without them there is no cycle |
| `Trimming.TrimmedIsValid` | src/domain.cpp:559-671 | what is left of a valid definition is valid, so that it can be submitted instead |
| `Trimming.CycleVerdict` | src/planner.cpp:1404-1420 | infeasibility, as declared for a cycle, is true if and only if there is no plan without the actions on cycles; otherwise the optimum is the optimum without them |
| `Bound.ServiceUpperBound` | src/planner.cpp:1088-1139 | the highest value set anywhere plus every positive contribution as often as it may occur; none exactly when that leaves 64 bits |
| `Bound.GoalUpperBound` | src/planner.cpp:1056-1139 | the bound on a goal subject, which exists exactly when the goal is no service goal or the service bound does not overflow |
| `Bound.ServiceBoundHolds` | src/planner.cpp:1424-1449 | in every reachable state a known service is at most its bound, so a bound below the goal rules out every plan |
| `Bound.FlagBoundDecides` | src/planner.cpp:1424-1449 | a bound on a link, node or restoration goal decides it exactly; the comparison with the goal value errs only for values above one |
| `Bound.HighValueIsMisjudged` | src/planner.cpp:1424-1449 | in a valid definition a link goal of value two that holds from the start has the empty plan and a bound of one |
| `Replaying.ReplayPlan` | src/planner.cpp:598-641 | replaying an admissible encoding never fails and writes down the steps that carry it out |
| `Replaying.ScheduleIsContiguous` | src/planner.cpp:598-641 | the steps follow each other without a gap from the start tick to the stated completion |
| `Replaying.StepsCarryOut` | src/planner.cpp:598-641 | the produced steps are what the validator asks of every step |
| `Planner.RequiredDomains` | src/planner.cpp:1167-1192 | the authority domains that planning depends on |
| `Planner.ScreenAuthority` | src/planner.cpp:1327-1352 | refuses exactly when the authority is not current, with the decision of the first required domain that lapsed, and for an insufficient level only when none has |
| `Planner.Screen` | src/planner.cpp:1277-1372 | lets exactly the admissible requests pass, and refuses the others with the decision of the first thing found wrong |
| `Planner.CollectUnresolved` | src/planner.cpp:1384-1402 | the referenced subjects whose value is open, and no others |
| `Planner.StaticProof` | src/planner.cpp:1404-1449 | answers exactly when there is a cycle or a goal beyond its bound, and a certificate proves what it claims |
| `Planner.StaticProofsHidePlans` | src/planner.cpp:1404-1449 | two valid problems with a plan are declared infeasible, one by its cycle and one by its bound |
| `Planner.DeriveState` | src/planner.cpp:1199-1237 | the planner's initial state reflects the table it keeps |
| `Planner.ProducedConforms` | src/planner.cpp:1465-1508 | under tie-consistent evidence a plan put together from an optimal sequence conforms, whatever the capacities and sums |
| `Planner.PlanAndValidate` | tests/test_validate.cpp:11-31 | planner and validator run one after the other: under tie-consistent evidence the validator finds nothing in any plan that the planner reports, as long as no action uses a resource twice |
| `Planner.Conclude` | src/planner.cpp:1451-1555 | the decision after the search: the optimum, whatever is open; an exhaustive proof only when no subject of a precondition or a goal is open; or why neither; a limit is reported only when too many sequences compete or one of them costs too much |
| `Planner.Plan` | src/planner.cpp:1253-1555 | rejects exactly what is not admissible, with the decision of the first thing wrong; a plan is bound to its request, optimal and conforming; a certificate is right about the state that planning starts from, and a static one given exactly when there is a cycle or a goal beyond its bound; an indeterminate limit means that too many sequences compete or one of them costs too much; otherwise a plan is found whenever there is one |
| `Completions.InfeasibleForEveryCompletion` | src/planner.cpp:1360-1402 | with the consumables used, the restorations awaited and the floored services that are shifted established besides what preconditions and goals ask about, whatever is a plan after more has been established was one before |
| `Completions.ExhaustiveForEveryCompletion` | src/planner.cpp:1538-1555 | under these conditions an exhaustive certificate holds for every completion of the evidence |
| `Unestablished.ConsumablesMislead` | src/planner.cpp:811-820 | nothing is open and there is no plan, although one appears when the default availability of a consumable is established |
| `Unestablished.RestorationMisleads` | src/planner.cpp:671-695 | the same for a resource whose availability is established and whose restoration is awaited |
| `Unestablished.FlooredServicesMislead` | src/planner.cpp:834-898 | the same for a floored service that an action raises by an amount |
| `Completions.SpentHasOrigin` | src/planner.cpp:272-320 | behind every unit spent there is a fact about availability, a fact about restoration, or an earlier step that set or restored the consumable |
| `Completions.SpentIsBacked` | src/planner.cpp:272-320 | with no such step, units are spent on a fact about availability, or on a restoration alone and then from the default capacity |
| `Unestablished.RestoredIsSpent` | src/planner.cpp:272-320 | a plan of a valid definition spends units that only a restoration stands behind |
| `Certificates.CheckBound` | src/validate.cpp:886-910 | matches the goal by subject and value and compares the stated bound with the structural maximum of a service, or with zero |
| `Certificates.CheckExhaustive` | src/validate.cpp:911-945 | accepts exactly a non-zero node count with every referenced subject known |
| `Certificates.CheckCertificate` | src/validate.cpp:827-950 | accepts exactly what these rules say, from the initial state that the facts establish |
| `Certificates.BoundAcceptedIff` | src/validate.cpp:886-910 | a bound certificate of the planner is accepted if and only if it is about a service or its bound is zero |
| `Certificates.AcceptsBoundIff` | src/validate.cpp:886-910 | for every valid definition, whether or not there is a plan, every bound up to the maximum of a service is accepted, and nothing but zero for other goals |
| `Certificates.BoundBetweenIsRight` | src/validate.cpp:886-910 | an accepted bound rules out every plan when it lies between the bound the definition has and the goal value |
| `Certificates.ReportedIsAcceptedIff` | src/validate.cpp:827-950 | under tie-consistent evidence what the planner reports is accepted, except for a bound certificate about a link, node or restoration goal with a bound that is not zero |
| `Certificates.ForgedIsAccepted` | src/validate.cpp:886-910 | a bound certificate is accepted against a service goal that is met from the start |
| `Certificates.ForgedSearchIsAccepted` | src/validate.cpp:911-945 | an exhaustive certificate with any non-zero count is accepted against a goal that is known to be met |
| `Crc.AbsorbInjective` | src/crc32.cpp:25-31 | one step of the register is injective in the register and in the byte |
| `Crc.ByteChangeDetected` | src/crc32.cpp:25-31 | changing any one byte of a message changes its CRC-32 (IEEE 802.3, clause 3.2.9) |
| `Crc.ShiftLinear` | src/crc32.cpp:8-23 | one shift of the reflected polynomial is linear over exclusive or |
| `Crc.LookupIsAbsorb` | src/crc32.cpp:25-31 | one table lookup does the work of eight shifts |
| `Crc.BuildTable` | src/crc32.cpp:8-23 | the table holds eight shifts of every byte |
| `Crc.ComputeChecksum` | src/crc32.cpp:25-31 | the table-driven checksum equals the bitwise definition |
| `Framing.FrameRecord` | src/persistence.cpp:209-229 | writes a record's frame into a buffer of its exact size |
| `Framing.FrameParses` | src/persistence.cpp:109-165 | a frame is read back whole, whatever follows it |
| `Framing.PartialIsTorn` | src/persistence.cpp:82-107 | every strict beginning of a frame reads as a torn tail |
| `Framing.CorruptFrameIsBad` | src/persistence.cpp:109-155 | changing any one byte of a frame makes it refused, never torn |
| `Framing.SingleByteRefused` | src/persistence.cpp:79-174 | changing any one byte of a journal makes the scan fail |
| `Framing.CutJournal` | src/persistence.cpp:79-174 | cutting a journal anywhere leaves exactly the complete records, stops at the last boundary, and reports a torn tail exactly when the cut is inside a record |
| `Framing.ParseNext` | src/persistence.cpp:84-155 | the checks on one header and payload, in order |
| `Framing.ScanRecords` | src/persistence.cpp:79-174 | the scan loop reads what the recursive specification reads |
| `Codecs.AcceptedIsEncoded` | src/canonical.cpp:48-165 | for an exact format a message is accepted as a value if and only if it is that value's encoding |
| `Codecs.OnlyTheWhole` | src/canonical.cpp:158-165 | nothing shorter and nothing longer than an encoding is accepted |
| `Codecs.EncodingIsNoPrefix` | src/canonical.cpp:9-46 | no encoding begins with another |
| `Codecs.ListExact` | src/canonical.cpp:108-118 | counted lists of an exact format are exact |
| `Codecs.TextExact` | src/canonical.cpp:145-156 | length-prefixed text of bounded length is exact |
| `Formats.DefinitionExact` | src/domain.cpp:317-400 | the format of definitions is exact |
| `Formats.FenceExact` | src/codec.cpp:250-270 | the format of fences is exact |
| `Formats.RequestExact` | src/domain.cpp:448-461 | the format of requests is exact |
| `Formats.RequestBijection` | src/codec.cpp:272-311 | decoding accepts a byte string as a request if and only if it is the encoding of that request within the limits, and accepts no strict prefix or extension of it |
| `Reading.CanonicalReader.Need` | src/canonical.cpp:48-61 | the bounds check, with one failure that sticks |
| `Reading.CanonicalReader.ReadInteger` | src/canonical.cpp:63-96 | reads a little-endian integer or fails |
| `Reading.CanonicalReader.ReadText` | src/canonical.cpp:145-156 | reads bounded text or fails |
| `Reading.DecodeFence` | src/codec.cpp:259-270 | reads exactly what the fence format reads |
| `Reading.DecodeEvidence` | src/codec.cpp:183-206 | reads exactly what the evidence format reads |
| `Reading.DecodePolicy` | src/codec.cpp:229-248 | reads exactly what the policy format reads |
| `Decoding.DecodeAction` | src/codec.cpp:78-153 | reads exactly what the action format reads |
| `Decoding.DecodeDefinition` | src/codec.cpp:22-181 | reads exactly what the definition format reads |
| `Decoding.DecodeAuthority` | src/codec.cpp:208-227 | reads exactly what the authority format reads |
| `Decoding.DecodePlanRequest` | src/codec.cpp:272-311 | accepts exactly when the request format accepts all of the bytes, with the same request |
| `Encoding.EncodeDefinition` | src/domain.cpp:317-400 | writes exactly what the definition format says |
| `Encoding.EncodeEvidence` | src/model.cpp:269-285 | writes exactly what the evidence format says |
| `Encoding.EncodeAuthority` | src/model.cpp:146-157 | writes exactly what the authority format says |
| `Encoding.EncodePolicy` | src/domain.cpp:432-440 | writes exactly what the policy format says |
| `Encoding.EncodeFence` | src/codec.cpp:250-257 | writes exactly what the fence format says, whatever the length of the reason |
| `Encoding.EncodeRequest` | src/domain.cpp:448-461 | writes exactly what the request format says |
| `Encoding.SendAndReceive` | src/codec.cpp:302-311 | encoding a request within the limits and decoding the bytes gives the request back |
| `Recovery.SnapshotReads` | src/persistence.cpp:324-367 | a snapshot of a ledger is read back whole |
| `Recovery.OversizedSnapshotRefused` | src/persistence.cpp:543-566 | a snapshot of four gigabytes or more is written with a wrapped length and refused when read |
| `Recovery.RecoveryIsLedger` | src/persistence.cpp:324-413 | after the process is gone, opening finds exactly the ledger, if and only if the files and the ledger are within the sizes it insists on and the snapshot within the length it can state |
| `Recovery.NextKeeps` | src/persistence.cpp:500-615 | every write, flush, snapshot step, crash and reopening keeps the layout of the disk |
| `Recovery.AcknowledgedForGood` | src/persistence.cpp:500-533 | what has once been acknowledged stays at its place for good |
| `Recovery.CrashSafety` | src/persistence.cpp:324-615 | at any point of any run, after a crash that keeps any part of the unflushed bytes, opening recovers every acknowledged record once and in order, and at most the one record being written besides |
| `Incarnations.FenceIsRead` | src/codec.cpp:259-270 | a fence record is read back if and only if its reason is at most 128 bytes, which writing does not check |
| `Incarnations.BootIsRead` | src/persistence.cpp:231-242 | a boot record is read back as the incarnation that wrote it |
| `Incarnations.DynamicsAreFenced` | src/persistence.cpp:453-475 | every recovered attempt or evidence record has a later fence that carries its sequence |
| `Incarnations.BootsIncrease` | src/persistence.cpp:435-438 | a boot that advanced is strictly above every earlier one |
| `Incarnations.BootedIsAbove` | src/persistence.cpp:435-488 | what an opening writes keeps the records orderly and ends strictly above what it found |
| `Store.Disk.Crash` | src/persistence.cpp:500-533 | the process dies with any part of its unflushed bytes on the disk |
| `Store.Disk.Truncate` | src/persistence.cpp:376-397 | a torn tail is cut off |
| `Store.LoadSnapshot` | src/persistence.cpp:324-367 | the checks on a snapshot, in order |
| `Store.Recall` | src/persistence.cpp:407-430 | refuses records out of order and unreadable boots and fences, and nothing else |
| `Store.SnapshotOf` | src/persistence.cpp:543-566 | builds the snapshot bytes of all records |
| `Store.DurableStore.Append` | src/persistence.cpp:500-533 | appends and flushes one record with the next sequence, or refuses at a limit and changes nothing |
| `Store.DurableStore.RecordFence` | src/persistence.cpp:535-541 | appends a fence and keeps the known fences those of the records |
| `Store.DurableStore.FenceAll` | src/persistence.cpp:453-475 | fences every recovered dynamic record, or stops at a limit |
| `Store.DurableStore.Restart` | src/persistence.cpp:446-488 | fences and then publishes the new incarnation |
| `Store.DurableStore.CommitSnapshot` | src/persistence.cpp:543-615 | installs the snapshot before it resets the journal, and loses no record |
| `Store.Open` | src/persistence.cpp:324-498 | returns a store exactly when the files and records are in order and there is room; it then holds every acknowledged record, the fences and its own boot, strictly above every opening that ever returned |
| `Sessions.HistoryIsRun` | src/persistence.cpp:446-541 | a store makes only runs of the disk in which every opening first writes its fences and its boot record |
| `Sessions.NothingIsHeld` | src/persistence.cpp:483-510 | a store without room for a boot record never holds anything |
| `Lockout.RoomyNeverLocksOut` | src/persistence.cpp:324-413 | what a store holds is recovered whole after every run and crash when its files have room for a first boot record and the largest records after it |
| `Lockout.LocksOutIff` | src/persistence.cpp:446-541 | some run of a store ends in one that is not recovered, if and only if it can be opened at all and has no such room, or more than a snapshot can state the length of |
| `Lockout.DefaultsLockOut` | src/persistence.cpp:500-533 | with the default limits 64 of the largest records, each acknowledged after the first opening, end in a store that is not recovered |
| `Lockout.WrappedLengthLocksOut` | src/persistence.cpp:543-566 | with files within their limits, a snapshot whose length has wrapped around is what locks the store out |
| `Lockout.FullNeverOpens` | src/persistence.cpp:483-488 | once as many records as a store may hold are acknowledged, no later state of it can be opened, for want of room for a boot record |
| `Lockout.FullIsReachedIff` | src/persistence.cpp:483-510 | a store can bring itself there if and only if it can be opened at all |
| `Lockout.LongFenceLocksOut` | src/persistence.cpp:407-430 | one acknowledged fence whose reason is longer than 128 bytes keeps every later state of the store from being opened |
| `Lockout.LongFenceIsWritten` | src/persistence.cpp:535-541 | such a fence can be written after the first opening with the default limits |
| `Reopening.FillAndReopen` | src/persistence.cpp:324-533 | the operations of the store themselves: opened, filled with n of the largest records, killed and opened again, it opens exactly when the journal is within its limit and there is room for another boot record |
| `Service.RunPlan` | src/runtime_service.cpp:400-481 | nothing is told before it is durable: a plan is answered only after its attempt and the plan itself have been appended, and a foreign request leaves no trace |
| `Service.RunValidate` | src/runtime_service.cpp:483-495 | for every request the verdict is the validator's, whether or not the lineage could be recorded |
| `Queue.BoundedKept` | src/runtime_service.cpp:600-716 | every step keeps the queue within its bound and empty once the service is stopping |
| `Queue.InOrderKept` | src/runtime_service.cpp:518-530 | what waits is what was accepted last, in that order |
| `Queue.ConservedKept` | src/runtime_service.cpp:497-559 | every step keeps each accepted job in exactly one place |
| `Queue.DurableKept` | src/runtime_service.cpp:400-481 | every step keeps answered plans on record, after their attempts |
| `Queue.UntouchedKept` | src/runtime_service.cpp:681-705 | every step keeps jobs that have not run without a trace |
| `Queue.ExactlyOnce` | src/runtime_service.cpp:497-716 | in every interleaving nothing is answered twice, and once stopped every accepted job has had exactly one answer |
| `Queue.DeliveredIsRecorded` | src/runtime_service.cpp:448-481 | a delivered plan is on record, after the attempt to make it |
| `Queue.ClosedNeverRan` | src/runtime_service.cpp:686-703 | a job told that the service closed has left no record |
| `Queue.ShutdownEnds` | src/runtime_service.cpp:681-716 | shutting down ends in every interleaving within a stated number of steps, and can stop only when stopped |

## Left out

- Enumerators outside their range (COUNT and beyond): the datatypes hold only the named values; decoders refuse every other byte.
- Search statistics, reason codes, explanations and rendered text: they carry no decision. Of the effort counters of certificates only the expanded nodes mean something here: they are not zero.
- Digests: uninterpreted functions of the values they cover; no freedom from collisions is assumed.
- Canonicalisation (sorting) of requests before planning: requests are taken in canonical order.
- Evidence bindings of a plan step are a set; the source keeps a sorted list without repetitions.
- The iteration order of the resolution table: `InitialStates.Materialise` is proved for every order.
- Arithmetic of service deltas that would overflow signed 64 bits, which has no defined result in C++, is exact here.
- `validate_plan` on an invalid definition stops after that finding in the model; the source goes on over the same definition. Both report a finding.
- The refusals inside `replay` are proved unreachable for the encodings the search reports.
- Plan, certificate and response codecs: plan records are written by an unspecified function in `Service`; the format of requests shows what would be shown of them.
- The digests and the listed assumptions that `validate_certificate` checks besides the claim itself.
- Input and output errors, directory synchronisation and the temporary file of a snapshot: writing, flushing, installing and resetting are atomic steps that succeed, between which the process may crash.
- Appending without flushing: only fault injection does it; the crash between a write and its flush is a step of `Recovery`.
- The limits of a store are the same at every opening.
- Reference.Simulate: requires `Regular` problems, which the code does not check. Without these conditions its 32-bit and 64-bit sums admit what is not admissible (`Overlapping.WrappedSumPasses`), so there is no meaning to compare with.
- Reference.EvaluateSequence: requires `Regular` problems, for the same reason.
- Enumeration.Enumerator.Visit: requires `Regular` problems, for the same reason.
- Enumeration.Enumerator.Descend: requires `Regular` problems, for the same reason.
- Enumeration.FullyEnumerated: requires `Regular` problems, for the same reason.
- Enumeration.Solve: requires `Regular` problems, for the same reason.
- Differential.Compare: requires `Regular` problems, for the same reason; the search alone (`Search.Search.Run`) requires none of these conditions.
- Validate.ValidatePlan: says nothing of plans that do not conform when the sums do not fit their widths; they may get no finding (`Overlapping.WrappedSumPasses`).
- Validate.CheckSteps: says nothing of such plans either.
- Validate.CheckStep: says nothing of such steps either.
- Service.RunValidate: says nothing of such plans either.
- Sessions, sockets, the server, the command line and authority-binding files: no decision of the planner depends on them.
- Counters and high-water marks of the service, and its fault injection points.

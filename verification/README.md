# Scheduling bridge: durable flow engine, proved

A model of the bridge's durable flow engine and of the small schedulers and protocols
around it, with proofs about all inputs, all runs and all interleavings. `dafny verify
dfyconfig.toml` covers every file.

- **Plans.** `PlanValidator`, `KahnOrder`, `DependencyGraph`: the five validation passes,
  Kahn's algorithm with its indegree map and work queue. `FlowBuilder`, `BuiltFlows`: edges
  derived from needs and provides, and what construction buys at run time.
  `JsonScalars`, `CanonicalJson`, `CanonicalMeaning`, `CanonicalReadable`, `PlanHash`: the
  canonical text behind the plan hash. `JsonReader` is a reader of JSON written from the
  grammar of RFC 8259 alone; what is printed is proved to read back through it.
- **The fold.** `FlowFold` and `FlowLease` specify `runFlow` as one flat machine on values
  (one loop, next index or reroute target, budgets, sessions, journal, compensation, resume).
  `FlowRunner` is `runFlow` as it is written, a class with mutable fields and nested loops,
  proved to compute the flat machine. The theorems are then about the flat machine:
  `FlowAnswers` (what a lease makes of its steps' answers, read off its log), `FlowBudgets`,
  `FlowTermination`, `FlowSessions`, `FlowNeeds`, `FlowStarve`, `StarvedWalks`, `StarvedRun`, `FlowOnce`,
  `FlowReturn`, `FlowResume`, `ResumeLoss`, `FlowTrace`.
- **The lease wrapper.** `BookingGate` specifies the skew check, the confirmation-probe gate
  and the failure mapping; `BookingRunner` is the imperative wrapper, `BookingWorker` the job
  driver. `BookingVerdict` says when a lease ends how, without the specification's own
  functions. `BookingOnce`, `BookingReturn`, `BookingBoundary`, `BoundaryHole` are about whole operations: any
  number of leases over one journal, each cut by a crash at any act.
- **Journals.** `Journals` (memory, and Redis at the level of stored text) and
  `PostgresAppend` (any interleaving of appenders).
- **Second cores.** `HeartbeatOrder`, `HeartbeatFairness`, `HeartbeatRun`; `PageLimiter`;
  `SingleFlight` and `ClaimLock` over the lock of `TokenLock`; `ReadyIndex`; `Redaction`.

How a crash is modelled: a lease produces a sequence of acts (append a row, enter a step,
open or close a session, undo). A crash leaves a prefix of it. What a step answers, whether a
session opens, whether an append or a read succeeds and what choosers decide are parameters
of every theorem, so each holds for all behaviours. One call of a step includes its retry
schedule.

Assumptions that stand as `requires` where they are used, as the code needs them: leases of
one operation do not overlap; at-most-once needs reliable appends and reads (a failed append
is logged and ignored, a failed read degrades to an empty journal); tokens of the single
flight are unique. Automatic induction is
switched off on every lemma, so each inductive proof is written out.

Where code and documentation part, the model follows the code and the difference is proved:

- The failure boundary (docs and src/server/flow-runner.ts:114-123) promises that
  `failed_pre_submit` means submit was not reached. `BoundaryHole.BoundaryExactly` shows it
  holds over all operations exactly when submit and extract-confirmation share a segment. The
  Acuity flow gives each its own segment (src/adapters/acuity/flow-steps.ts:674-718): a lease
  that crashes after submit's last checkpoint, followed by a lease whose session does not
  open, reports `failed_pre_submit` for a submitted booking.
- The validator accepts recovery edges that jump back over an effectful-once step.
  `FlowReturn.OnceExactly`, `BookingReturn.OperationOnceExactly`: the step is entered at most
  once in every run of a lease, and in every operation of crash-cut leases, exactly when no
  edge does.
- The validator's needs check reads the plan in order and does not see forward recovery
  edges, which arrive without what the rerouted steps provide. `StarvedRun.NeedsExactly`: no
  fresh run ever misses a need exactly when no walk over completed nodes and recovery edges,
  within the budgets, reaches a node past all providers of one of its needs.
  `StarvedRun.NeedsOverLeasesExactly`: no lease of any operation does exactly when no chain of
  such walks does, each from a boundary that the one before it could journal, each with fresh
  budgets.
  `StarvedRun.ValidYetStarving` is a validated plan of two steps that fails this.
- A redacted key is not restored on resume. `ResumeLoss.ResumeExactly`: for a flow without
  recovery edges, every lease that succeeds has the output of an undisturbed run, whatever
  the steps compute and whenever the operation crashes, exactly when each key that is
  provided and live at a restorable boundary has a codec that decodes what it encoded to
  itself, if at all. Where every codec can carry some value this is: exactly when all
  provided keys have such codecs (`ResumeLoss.UsableResumeExactly`). Redaction behind such a
  codec therefore does harm exactly where the decoder accepts what redaction left and reads
  something else (`ResumeLoss.RedactionLoses`): a redacted string is lost
  (`ResumeLoss.RedactedKeyLost`), while a wholly redacted record is not, because its decoder
  rejects the placeholder and the operation runs again (`ResumeLoss.RejectedKeyKept`).
- `redactValue` is documented to replace every annotated position.
  `Redaction.LeaksExactly` says for which schemas it does: exactly those whose walk hides
  their own annotations, a condition on the schema alone. `Redaction.WalkStopsShort` names
  five shapes where it does not.
- The page limiter is shared by callers that may pass different maxima. `PageLimiter.FairExactly`:
  every run grants in request order exactly when all requests use one maximum, and under the
  same condition no grantable request ever waits beside a free slot. For any two maxima
  `PageLimiter.MixedMaximaOvertake` and `PageLimiter.MixedMaximaStall` are the runs that break it.
- Budgets are keyed by the text `from=>to`, so two edges whose texts collide share one budget;
  the execution bound still holds (`FlowTermination.BudgetsTotal`).

## Model

| member | source | states |
|---|---|---|
| FlowRunner.PartitionSegments | src/flow/run.ts:124-132 | the segment runs cover the plan from 0 to n-1 without gap or overlap, adjacent runs differ in name, every node lies in the run of its name |
| FlowRunner.SegmentNamesDistinct | src/flow/plan.ts:149-162 | on a contiguous plan no two runs share a name, so a session layer is asked for by one segment only |
| FlowRunner.RangeIsName | src/flow/run.ts:376-392 | testing a reroute target against the run's index range decides exactly whether it carries the run's segment name |
| FlowRunner.ComputeBudgets | src/flow/run.ts:134-143 | the nested loops compute the budget map and the budget sum of the specification |
| FlowRunner.FlowRun.constructor | src/flow/run.ts:117-157 | a fresh run holds the initial fold of the specification |
| FlowRunner.FlowRun.RunOne | src/flow/run.ts:262-373 | running a node in place has exactly the effect and result of the specified step: checks in order, rows, budgets, state, tokens, floor (`FlowAnswers.LeaseAnswered` says what that is) |
| FlowRunner.FlowRun.RunInSession | src/flow/run.ts:376-392 | a node runs only inside an open session of its own segment |
| FlowRunner.FlowRun.RunSegment | src/flow/run.ts:376-392 | the segment loop continues the flat machine from where it leaves: next segment, an outside reroute target, or a fault |
| FlowRunner.FlowRun.Execute | src/flow/run.ts:456-467 | the nest of session loops ends exactly as the flat machine does, with the same fold |
| FlowRunner.FlowRun.EncodeProvidedState | src/flow/run.ts:191-211 | all provided keys that have a schema, or nothing when one encoder fails |
| FlowRunner.FlowRun.HydrateFrom | src/flow/run.ts:415-440 | token and attempt seeding and restoring the last boundary row, as specified |
| FlowRunner.FlowRun.FindReplay | src/flow/run.ts:441-452 | refuses at the first effectful-once node ahead of the start that has journaled evidence |
| FlowRunner.FlowRun.CompensateAll | src/flow/run.ts:469-482 | undoes the succeeded steps that have a handler, latest first, one row each |
| FlowRunner.FlowRun.Run | src/flow/run.ts:405-490 | one lease of the class computes `RunFlow` of the specification: same final variables, same acts, same fault |
| FlowAnswers.LeaseAnswered | src/flow/run.ts:238-372 | in every lease, from the log alone: each call is given the inputs and the last token its history yields and is closed by the row its answer demands (completed, rerouted with the budget left, failed with its code, none after a defect); state, tokens, budgets, attempts, the confidence floor (the least confidence returned) and the rerouted flag are those of the answers; the fault is that of the last call; undone are the completed calls with a handler, latest first, each with its own output |
| FlowAnswers.LeaseLandings | src/flow/run.ts:329-341 | in every lease: a completed row has no landing, or a known one that its node expects; a rerouted row has a known landing that was not expected and the declared target its chooser named; any other landing is the last call of the lease, is not completed, and ends it as diverged at that step with that landing |
| FlowLease.StartsBehind | src/flow/run.ts:422-440 | a lease enters the plan behind the last boundary row it sees, with what that row decodes to laid over the initial state |
| FlowLease.StartsAtHead | src/flow/run.ts:422-440 | without such a row, or if it does not decode, it starts at the head with the initial state alone |
| FlowLease.SeedTokensLast | src/flow/run.ts:415-421 | the token a step starts with is that of its last journaled row that has one |
| FlowLease.SeedAttemptsLargest | src/flow/run.ts:415-421 | the attempt a step goes on from is the largest among its journaled rows |
| FlowLease.StartsSeeded | src/flow/run.ts:405-421 | tokens and attempts go on from the journal, budgets and executions start afresh with every lease |
| FlowLease.ReplayGuard | src/flow/run.ts:441-452 | answers nothing exactly when no effectful-once node from the start on has a started or completed row |
| FlowLease.CompensateKeeps | src/flow/run.ts:469-482 | compensation only adds acts: state, budgets and counters stay |
| FlowTermination.BudgetsTotal | src/flow/run.ts:134-143 | the budgets never hold more than the sum that enters the bound, even when edge key texts collide |
| FlowBudgets.BudgetAt | src/flow/run.ts:134-143 | the budget of a key text is that of the last edge declared under it |
| FlowBudgets.BudgetsTotalExactly | src/flow/run.ts:134-143 | the budgets of a valid plan add up to the sum in the bound exactly when no two edges share a key text |
| FlowBudgets.PlainBudgets | src/flow/run.ts:134-143 | in a valid plan whose step names hold no equals sign no two edges share one: each has the budget it declares |
| FlowTermination.DriveBounded | src/flow/run.ts:262-279 | executions made plus executions still possible never exceed the limit along any run |
| FlowTermination.LeaseTerminates | src/flow/run.ts:271-279 | whatever steps, choosers and journal do, a lease of a valid plan makes at most n(1 + sum of maxReentries) node executions and never ends with TERMINATION_BOUND_EXCEEDED |
| FlowNeeds.LeaseSupplied | src/flow/run.ts:283-289 | a lease whose plan guarantees its needs never ends with MISSING_NEED, and every boundary row it writes carries all that is guaranteed behind it |
| FlowStarve.StarvesExactly | src/flow/plan.ts:105-116 | a plan has a guarantee for its needs exactly when no walk over completed nodes and recovery edges reaches a need past all its providers |
| FlowStarve.BackwardNeverStarves | src/flow/plan.ts:105-116 | for plans without forward recovery edges the validator's needs check is enough |
| FlowStarve.LeasesNeverMiss | src/flow/run.ts:422-440 | over any leases of one operation, each seeing any of the rows earlier leases tried to write, such a plan never misses a need |
| StarvedRun.StarvedBreaks | src/flow/run.ts:342-353 | every starving walk within the budgets, however often it repeats itself, is driven by some steps and choosers into MISSING_NEED |
| StarvedRun.NeedsExactly | src/flow/run.ts:283-289 | for every valid plan, colliding budget keys included: no fresh run misses a need exactly when no walk that the budgets pay for reaches one past all its providers |
| StarvedRun.NeedsOverLeasesExactly | src/flow/run.ts:422-440 | for every valid plan: no lease of any operation, whichever written rows it sees, misses a need exactly when no chain of walks does, each within fresh budgets and each but the last up to a boundary |
| StarvedRun.OperationStarves | src/flow/run.ts:422-440 | every such chain is driven by some leases and crashes into MISSING_NEED |
| StarvedWalks.OperationMisses | src/flow/run.ts:422-440 | a lease that misses a need after whatever leases came by such a chain |
| StarvedWalks.LeaseMisses | src/flow/run.ts:283-289 | a fresh run that misses a need came by a walk within the budgets |
| StarvedRun.ApartInBudget | src/flow/run.ts:134-143 | where budget keys do not collide the budgets forbid no walk and further leases add none: the two conditions are starving at all |
| StarvedRun.ValidYetStarving | src/flow/plan.ts:93-185 | the validator accepts a plan that starves |
| FlowOnce.LeaseOnce | src/flow/run.ts:405-454 | with a reliable journal a lease enters an effectful-once step at most once, not at all when the journal has evidence of it, and only right after its kept started row |
| FlowReturn.OnceExactly | src/flow/plan.ts:164-182 | for a valid plan the step is entered at most once in every run exactly when no recovery edge returns to it or over it |
| FlowReturn.ReturnBreaks | src/flow/run.ts:342-353 | such an edge has a flow, step answers and initial state that enter the step twice |
| FlowResume.ResumePreservesMeaning | src/flow/run.ts:405-454 | recovery-free plan, deterministic exact steps, true codecs for the keys that are live at restorable boundaries: after any crashes and row losses a lease that succeeds has the output of an undisturbed run, and an undisturbed lease succeeds or refuses with EFFECTFUL_ONCE_REPLAY |
| FlowResume.RoundTripsTrue | src/flow/run.ts:191-232 | codecs with decode after encode = identity meet that condition |
| FlowResume.StepAgrees | src/flow/run.ts:357-366 | states that agree on the live keys in front of a node agree on the live keys behind it: a lost value that nothing reads does no harm |
| ResumeLoss.ResumeExactly | src/flow/run.ts:405-454 | for a recovery-free flow: over every law, initial state, operation and lease the output of a succeeding lease is the undisturbed one exactly when every key that is provided and live at a restorable boundary has a true codec |
| ResumeLoss.UsableResumeExactly | src/flow/run.ts:191-232 | if every provided key has some value that can be written and read back: exactly when every value of every provided key that is decoded at all is decoded to itself |
| ResumeLoss.Loses | src/flow/run.ts:430-440 | for each untrue codec of such a key: steps, an initial state and a journaled boundary row from which a lease succeeds with another output |
| ResumeLoss.RedactionLoses | src/flow/redaction.ts:10-19 | with redaction behind usable codecs, whatever their decoders: meaning is preserved exactly when redaction leaves of every value of every provided key what decodes to the value itself or does not decode |
| ResumeLoss.AcceptedRedactionLoses | src/flow/redaction.ts:44-53 | in particular, for decoders that accept everything: exactly when no provided key is ever redacted |
| ResumeLoss.RedactedKeyLost | src/flow/redaction.ts:44-53 | a flow of one step whose redacted string is replaced by the placeholder in the resumed output |
| ResumeLoss.RejectedKeyKept | src/flow/run.ts:213-232 | a flow of one step whose wholly redacted record is not lost, because the decoder rejects the placeholder |
| ResumeLoss.NothingRestored | src/flow/run.ts:191-211 | a redacted key does no harm while another key keeps the boundary from being journaled, so that the codecs are usable cannot be dropped |
| FlowTrace.LeaseTrace | src/flow/run.ts:290-372 | the rows of an uncut lease are skips, then attempts in which each node follows its predecessor or the recorded reroute, then the aborted attempt of the fault, then the compensations of exactly the completed steps with a handler in reverse; every edge's budget is what is left plus its rerouted rows |
| FlowSessions.LeaseSessions | src/flow/run.ts:375-392 | in every lease, however it ends, sessions open and close in turn, every step is entered inside a session of its own segment, compensation runs outside any session and none stays open |
| BookingGate.PendingFrom | src/server/flow-runner.ts:592-597 | finds the first effectful-once node that was started and not completed, or shows that there is none |
| BookingGate.ReadNodeFrom | src/server/flow-runner.ts:457-464 | finds the first read node from a position on, or shows that there is none |
| BookingGate.FailureRule | src/server/flow-runner.ts:183-264 | a failure demands reconciliation exactly past the point of no return, is retryable exactly before it (the unproven payment bypass excepted), and has the code of its fault; a failure that a step states itself is passed through |
| BookingVerdict.BookedExactly | src/server/flow-runner.ts:610-625 | a lease is booked with v exactly when its pin matches and either nothing is pending and the fold succeeds with the truthy confirmation v, or a started step is pending, the probe's session opened, the first read node behind it is registered, and its call returned the truthy confirmation v |
| BookingVerdict.OutputMissingExactly | src/server/flow-runner.ts:610-625 | a succeeded fold without a truthy confirmation, and no other, is FLOW_OUTPUT_MISSING |
| BookingVerdict.FaultReported | src/server/flow-runner.ts:368-389 | a fold that ends with a fault is reported as that fault, by the last step whose start was handed to the journal |
| BookingVerdict.SkewReported | src/server/flow-runner.ts:277-312 | a mismatching pin does nothing and reconciles exactly on a journaled start of an effectful-once step |
| BookingVerdict.PendingSettles | src/server/flow-runner.ts:505-548 | while a step is pending only the probe is called; booked, the acts journal the pending step and the probe as completed, each under its largest attempt; ambiguous, they journal nothing as completed |
| BookingVerdict.PendingLogged | src/server/flow-runner.ts:466-548 | all acts of such a lease: session, the one call of the probe on the merged state, and its rows: a failed call as failed with an unknown landing, a confirming answer as two completions with its landing, any other answer none |
| BookingVerdict.MergedLast | src/server/flow-runner.ts:466-472 | the probe's input takes every key from the last journaled delta that has it |
| BookingRunner.Trace.Follow | src/server/flow-runner.ts:333-343 | the interceptor ends with the step of the last started append, kept or not |
| BookingGate.LastStartedIs | src/server/flow-runner.ts:333-343 | that is the step of a started append behind which there is no other |
| BookingRunner.CheckFlowPlanSkew | src/server/flow-runner.ts:277-312 | a mismatching pin never executes: reconcile when an effectful-once start is journaled, requeue otherwise |
| BookingRunner.MaxJournaledAttempt | src/server/flow-runner.ts:407-414 | the loop computes the largest journaled attempt of the step, at least 1 |
| BookingRunner.BookingRun.ProbeConfirmationGate | src/server/flow-runner.ts:432-549 | the gate's acts and verdict as specified: probe only, two completed rows on success, one failed row on a failing probe, reconcile otherwise |
| BookingRunner.BookingRun.RunFlowToVerdict | src/server/flow-runner.ts:368-389 | the fold's faults mapped by the last started step onto the status vocabulary |
| BookingRunner.BookingRun.Execute | src/server/flow-runner.ts:566-631 | skew check, gate, fold in that order: the lease's acts and verdict are those of `ExecuteBooking` |
| BookingWorker.ExecuteBookingJob | src/async/worker.ts:245-324 | the job ends in the status its verdict demands and its record says no more: retryable as the failure says and never when booked, one attempt more, kind and creation as before, leased until now + lease time unless requeued; other jobs are untouched, nothing ran unless the job was claimed with fresh slots, and a run requeues its job exactly on plan skew without a journaled effectful-once start, having done nothing |
| BookingWorker.ReconcileNotRetryable | src/async/worker.ts:149-158 | a job that needs reconciliation is recorded as retryable only if a step, or a session that did not open, stated that failure itself |
| BookingOnce.GateQuiet | src/server/flow-runner.ts:432-549 | the gate never enters an effectful-once step |
| BookingOnce.BookingLeaseOnce | src/server/flow-runner.ts:566-609 | one lease after any history enters the step only without evidence, at most once, after its kept started row |
| BookingOnce.HistoryOnce | src/server/flow-runner.ts:277-312 | after any number of crash-cut leases the history has at most one entry, preceded by its evidence |
| BookingOnce.EffectfulOnceOverLeases | src/server/flow-runner.ts:566-609 | over any leases of one plan, pinned or not, each cut at any act, an effectful-once step that no edge returns to is entered at most once |
| BookingReturn.OperationOnceExactly | src/server/flow-runner.ts:566-609 | over all operations of a valid plan, pinned or not, the step is entered at most once exactly when no recovery edge returns to it or over it |
| BookingReturn.ReturningTwice | src/flow/run.ts:342-353 | where one does, a single lease on an empty journal passes the gate and enters the step twice |
| BookingBoundary.PreSubmitMeansNotEntered | src/server/flow-runner.ts:183-264 | whatever the journal holds and even if it fails, a lease that reports failed_pre_submit did not enter submit itself |
| BookingBoundary.EvidenceReconciles | src/server/flow-runner.ts:566-609 | with submit and extract-confirmation in one segment, evidence of submit excludes failed_pre_submit |
| BoundaryHole.SharedSegmentKeeps | src/server/flow-runner.ts:114-123 | then over whole operations failed_pre_submit means submit was never entered |
| BoundaryHole.SubmittedYetPreSubmit | src/server/flow-runner.ts:256-263 | when submit ends a segment there is an operation of two leases that submitted and reports failed_pre_submit |
| BoundaryHole.BoundaryExactly | src/server/flow-runner.ts:154-159 | the boundary holds over all operations of a booking plan exactly when submit and extract-confirmation share a segment |
| DependencyGraph.ScheduledUntainted | src/flow/plan.ts:118-147 | what some order schedules after its dependencies neither lies on a cycle nor depends on one |
| DependencyGraph.StuckTainted | src/flow/plan.ts:118-147 | a set in which everything depends on a member lies on or behind a cycle |
| KahnOrder.CountEdges | src/flow/plan.ts:119-130 | indegrees count every dependsOn entry, dependents list one entry per edge, unknown dependencies are reported exactly |
| KahnOrder.InitialQueue | src/flow/plan.ts:131-131 | the queue starts with exactly the steps without dependencies, in plan order |
| KahnOrder.SortedExactly | src/flow/plan.ts:133-145 | when the queue runs dry a step has a positive indegree exactly when it lies on or downstream of a cycle |
| KahnOrder.VisitedExactly | src/flow/plan.ts:142-142 | fewer steps than nodes were visited exactly when the plan has a cycle |
| KahnOrder.FindCycle | src/flow/plan.ts:118-147 | unique ids, known dependencies: a cycle is reported exactly when there is one, and it lists exactly the steps on or downstream of a cycle |
| PlanValidator.CheckNeeds | src/flow/plan.ts:105-116 | no report exactly when every need comes from the initial keys or a prior node, and exactly the unmet needs are reported |
| PlanValidator.CheckSegments | src/flow/plan.ts:149-162 | no report exactly when every segment is one contiguous run, and exactly the re-entered segments are reported |
| PlanValidator.CheckEdges | src/flow/plan.ts:164-182 | no report exactly when targets exist and are distinct and budgets positive, and exactly the faulty edges are reported |
| PlanValidator.ValidateFlowPlan | src/flow/plan.ts:93-185 | no violation exactly for valid plans; every reported violation holds of the plan and every one that holds is reported |
| FlowBuilder.DerivedEdges | src/flow/flow.ts:110-117 | a node depends exactly on the prior nodes that provide something it needs |
| FlowBuilder.DerivedInOrder | src/flow/flow.ts:110-117 | they are listed once each, in plan order |
| FlowBuilder.DerivedAcyclic | src/flow/flow.ts:110-133 | with unique ids the derived edges are known and acyclic: the builder never trips the cycle check |
| FlowBuilder.NeedsFollowEdges | src/flow/flow.ts:113-117 | a met need comes from the initial keys or along a forward edge |
| FlowBuilder.AddMeetsExactly | src/flow/flow.ts:76-84 | the condition under which the builder's type lets a step be added is exactly the one under which the needs stay met |
| FlowBuilder.RecoverFirst | src/flow/flow.ts:145-156 | the first declaration of a step's edges counts, a budget left out is 1, and nothing else of the nodes changes |
| FlowBuilder.CheckDeclarations | src/flow/flow.ts:158-174 | exactly the unknown sources, repeated declarations and empty edge lists are reported |
| FlowBuilder.Build | src/flow/flow.ts:157-204 | a flow is built exactly for sound declarations, unique ids, met needs, contiguous segments and valid edges, and then node by node says what the steps declare: id, needs, provides, expects, idempotency, segment, tags, edges, chooser, handler, with the builder's schemas, initial keys, identity and plan hash; otherwise exactly the true violations are thrown, never a cycle or an unknown dependency |
| FlowBuilder.AssembledFrom | src/flow/flow.ts:110-133 | what is assembled from sound declarations over unique ids is what was declared |
| FlowBuilder.BuiltRunnable | src/flow/flow.ts:193-203 | every planned step is registered, and a step has a chooser exactly when it has recovery edges |
| BuiltFlows.BuiltFlowKnown | src/flow/flow.ts:157-204 | whatever steps, caller and journal do, a lease of a built flow never ends with UNKNOWN_STEP or TERMINATION_BOUND_EXCEEDED |
| BuiltFlows.BuiltFlowSound | src/flow/flow.ts:157-204 | nor with MISSING_NEED, when its plan does not starve, steps and caller supply what they declare, and the journal's boundary rows carry what is sure behind them (`RowsCarry`, which every such lease keeps) |
| BuiltFlows.DeclaredOnce | src/flow/flow.ts:119-131 | a step declared effectful-once, with no declared edge returning to it or over it, is entered at most once over all leases of the flow that was built |
| JsonScalars.DecimalReads | src/flow/plan.ts:56-60 | a printed integer is read back from the front of any text that goes on with a delimiter |
| JsonScalars.QuoteReads | src/flow/plan.ts:52-53 | an escaped string literal (RFC 8259 section 7) is read back from the front of any text |
| CanonicalMeaning.EntriesMean | src/flow/plan.ts:65-68 | the filtered and sorted entries are strictly ordered and mean the map the members mean |
| CanonicalJson.BeforeExactly | src/flow/plan.ts:67-67 | keys are ordered by the first UTF-16 code unit in which they differ, and a key comes before its continuations |
| CanonicalReadable.Printable | src/flow/plan.ts:49-74 | printing succeeds exactly for values that denote JSON, and throws for undefined items, non-finite numbers and non-JSON values |
| CanonicalReadable.RejectedAt | src/flow/plan.ts:57-73 | a rejection names the place of a value that is not JSON, and what is wrong with it |
| CanonicalReadable.ReadsBack | src/flow/plan.ts:49-74 | the text of a value, canonical or as written, is read by the JSON reader as the JSON value it denotes, from the front of any text that ends it |
| CanonicalReadable.Readable | src/flow/plan.ts:49-74 | the text of a value is uniquely readable from the front of a longer text |
| CanonicalReadable.CanonicalExactly | src/flow/plan.ts:76-77 | two printable values print alike exactly when they denote the same JSON value, objects being maps at every depth and undefined members absent |
| CanonicalReadable.OrderDoesNotShow | src/flow/plan.ts:65-70 | member order and undefined members do not show in the text |
| PlanHash.PlanReads | src/flow/plan.ts:13-43 | the canonical text reads as the plan: every part of it under its own name, nothing else, nodes and edges in order, no recoveries member where there are none |
| PlanHash.PlanTextNamesPlan | src/flow/plan.ts:79-81 | two plans have the same canonical text exactly when they are the same plan |
| PlanHash.PinNamesPlan | src/server/flow-runner.ts:277-282 | without a digest collision a pinned hash names one plan, so that all leases it lets through have one plan, which at-most-once over leases relies on |
| Journals.MemoryJournal.Append | src/flow/journal.ts:79-86 | appends one row numbered by the length, other operations untouched |
| Journals.MemoryJournal.WriteLease | src/flow/journal.ts:75-91 | after a lease the journal holds what it held plus the rows that were kept, in order |
| Journals.SpliceIsPrint | src/flow/redis-journal.ts:39-54 | the script's text splice is the JSON text of the row, members in their order at every depth, with its number as first member |
| Journals.JsonifiedMeans | src/flow/redis-journal.ts:92-101 | what JSON.stringify makes of a value denotes a JSON value, and which one: scalars as they are, undefined items and non-finite numbers null, undefined members left out |
| Journals.PayloadMeans | src/flow/redis-journal.ts:91-101 | what is stored of a row says of each of its members what JSON.stringify writes of it, of a seq member of its own nothing |
| Journals.RedisJournal.Append | src/flow/redis-journal.ts:88-104 | the stored texts stay the numbered rows in order, a rogue seq member and undefined members are dropped, the returned number is the old length |
| Journals.StoredTextReads | src/flow/redis-journal.ts:106-111 | a stored text is read as the row it was written for: its members and the number |
| Journals.RedisJournal.Read | src/flow/redis-journal.ts:106-111 | reading gives what was appended, in order, each row with its number |
| PostgresAppend.SeqIsCommitOrder | src/flow/postgres-journal.ts:184-247 | for every interleaving of appenders an operation's committed numbers are 0, 1, 2, ... in commit order |
| PostgresAppend.RetriesBounded | src/flow/postgres-journal.ts:242-246 | an append fails on exhausted retries only if at least maxRetries other appends of the operation committed meanwhile; a successful one is stored once under the number it returns |
| PostgresAppend.StepAppends | src/flow/postgres-journal.ts:191-228 | every step appends at most one row to one operation's journal and changes nothing else |
| HeartbeatOrder.PickBest | src/server/handler.ts:247-260 | the picked group comes first under share ascending, weight descending, order ascending, position |
| HeartbeatOrder.SchedulingWeight | src/server/handler.ts:229-232 | the largest integer not above the weight, within 1 to 100 |
| HeartbeatOrder.WeightMonotone | src/server/handler.ts:229-232 | a heavier group is never scheduled as a lighter one |
| HeartbeatOrder.OrderCandidateGroups | src/server/handler.ts:234-268 | the loop deals all candidates of the non-empty groups in the greedy order |
| HeartbeatFairness.GreedyUnique | src/server/handler.ts:246-266 | there is one greedy order |
| HeartbeatFairness.WeightedFair | src/server/handler.ts:251-259 | in every prefix, while group b has candidates left, (served a - 1) times weight b is at most served b times weight a |
| HeartbeatFairness.HeaviestFirst | src/server/handler.ts:251-259 | the first turn goes to a heaviest group, and among those to the one asked for first |
| HeartbeatFairness.FirstRoundCovers | src/server/handler.ts:246-266 | each of the G groups has its first candidate among the first G outputs |
| HeartbeatFairness.Conserved | src/server/handler.ts:246-266 | the output is a permutation of all candidates |
| HeartbeatFairness.OrderConserves | src/server/handler.ts:234-245 | all candidates of all groups that were asked for are ordered, each as often as asked, empty groups left out |
| HeartbeatFairness.KeepsGroupOrder | src/server/handler.ts:261-264 | each group's candidates keep their order |
| HeartbeatFairness.EqualWeightsRoundRobin | src/server/handler.ts:246-266 | for equal weights the greedy loop is column-major reading in request order |
| HeartbeatRun.RunAvailabilityHeartbeat | src/server/handler.ts:1590-1736 | one result per candidate in order; fresh ones skipped, a limit skip exactly when the jobs submitted before reach the limit, which is never exceeded |
| HeartbeatRun.FirstCandidatesGetIn | src/server/handler.ts:1620-1630 | with maxJobs at least the number of groups no group's first candidate is skipped for the limit |
| PageLimiter.After | src/shared/browser-service.ts:92-168 | in every reachable state the queue is exactly the waiting requests in request order and active is the number of unreleased grants |
| PageLimiter.SettledOnce | src/shared/browser-service.ts:111-121 | a request is settled at most once and one way |
| PageLimiter.DoubleRelease | src/shared/browser-service.ts:116-120 | calling a release closure again changes nothing |
| PageLimiter.AdmittedExactly | src/shared/browser-service.ts:137-148 | a request is let through at once exactly when no page is active or one more stays within its maximum; otherwise it waits behind all others with its maximum's whole part, at least 1 |
| PageLimiter.ReleaseServes | src/shared/browser-service.ts:105-135 | the first call of a release closure frees one slot and serves the line from its head as long as the next one fits, and no longer |
| PageLimiter.NeverOverMaximum | src/shared/browser-service.ts:137-148 | however the requested maxima vary, no more pages are active than the largest |
| PageLimiter.FullAndFair | src/shared/browser-service.ts:123-133 | with one maximum: a waiting request means all slots are taken, grants are in request order, nobody is overtaken |
| PageLimiter.MixedMaximaOvertake | src/shared/browser-service.ts:141-145 | for any m < M: fill m slots, ask with m, ask with M, and the last request is granted past the waiting one |
| PageLimiter.MixedMaximaStall | src/shared/browser-service.ts:153-161 | for any m < M: a timeout at the head of the queue leaves a grantable request waiting beside a free slot |
| PageLimiter.FairExactly | src/shared/browser-service.ts:123-148 | for every set of effective maxima: all runs within it grant in request order exactly when it has at most one element, and exactly then no run leaves the head of the queue waiting while it could be granted |
| PageLimiter.ConcurrencyLimiter.Request | src/shared/browser-service.ts:137-166 | the mutable limiter does the specified request step and keeps the invariant |
| PageLimiter.ConcurrencyLimiter.Timeout | src/shared/browser-service.ts:153-161 | the timer removes exactly the waiting request and settles it |
| PageLimiter.ConcurrencyLimiter.CallRelease | src/shared/browser-service.ts:105-121 | a release frees one slot and drains the queue as specified |
| SingleFlight.DeletesOnlyOwn | src/shared/bridge-read-cache.ts:53-58 | with unique tokens a compare-and-delete removes no lock but the caller's own, even after its time to live |
| SingleFlight.OneTimelyWinner | src/shared/bridge-read-cache.ts:128-138 | at most one caller holds the lock within its time to live |
| SingleFlight.OneReader | src/shared/redis-l2.ts:131-171 | if no winner outlives its lock at most one caller reads as winner at a time |
| SingleFlight.OnlyAcceptedReads | src/shared/bridge-read-cache.ts:140-168 | every cached value, and every value served from the cache, is a successful winner read that shouldCache accepted |
| SingleFlight.OwnAnswers | src/shared/bridge-read-cache.ts:140-205 | in every run: whoever is not served from the cache is answered with its own read; the exceptions are an accepted read that could not be stored where failing commands fail the call, a failed command there, and the end of waiting |
| SingleFlight.ReadRecorded | src/shared/bridge-read-cache.ts:143-159 | an accepted winner read is stored next, any other winner read is the answer, and a read without the lock is the answer at once |
| SingleFlight.StoredUntil | src/shared/bridge-read-cache.ts:82-87 | a stored value is cached until its own time to live has run out, an empty array's being its own, unless another write comes first |
| SingleFlight.CacheServes | src/shared/bridge-read-cache.ts:114-120 | while a value is cached the next call is served it |
| SingleFlight.LosesAndWaits | src/shared/bridge-read-cache.ts:170-172 | who finds the lock taken waits, for the full waiting time |
| SingleFlight.WaiterServed | src/shared/bridge-read-cache.ts:173-186 | a waiter that polls while a value is cached is served it |
| SingleFlight.WaitsOut | src/shared/bridge-read-cache.ts:170-192 | until its deadline a waiter whose polls are answered waits or is served from the cache; it does not read and does not give up |
| SingleFlight.WaitingEnds | src/shared/bridge-read-cache.ts:202-205 | at its deadline it reads by itself, or gives the result that stands for giving up |
| SingleFlight.CommandFails | src/shared/redis-l2.ts:118-181 | a command that fails before the caller has read ends a strict call as failed, otherwise the caller reads by itself or stops waiting; a failed unlock changes no answer |
| SingleFlight.FreesOwn | src/shared/bridge-read-cache.ts:160-167 | a winner within its time to live frees its lock |
| SingleFlight.OutlivedLock | src/shared/bridge-read-cache.ts:128-168 | in every run, a winner that still reads when its lock has run out will read beside the next call |
| SingleFlight.SharedTokenSteals | src/shared/bridge-read-cache.ts:128-128 | and in every such run, if the next call has the same token, the late winner deletes that call's live lock |
| SingleFlight.LockRunsOut | src/shared/bridge-read-cache.ts:128-168 | every configuration has such a run |
| ReadyIndex.IndexExactly | src/async/redis-store.ts:204-233 | the ready set agrees with the scan exactly when no queued job was queued after the asked time, so always for a current time |
| ReadyIndex.ReadyIsClaimable | src/async/redis-store.ts:218-258 | what is listed as ready can be claimed; claimable but not listed are exactly the jobs that run without a lease |
| ReadyIndex.RedisStore.ListReadyJobs | src/async/redis-store.ts:204-233 | at most limit ready jobs, longest due first, none left out that was due before a listed one; with room for all exactly the scan; the lazy removal changes nothing that the index leads to, now or at any later time |
| ReadyIndex.RedisStore.Enqueue | src/async/redis-store.ts:131-197 | while the idempotency key has not run out and leads to a live record that record is returned, otherwise one queued record is added and indexed |
| ReadyIndex.RedisStore.ExpireKey | src/async/redis-store.ts:138-144 | the key's own time to live may run out first: then the next call adds a second record |
| ReadyIndex.RedisStore.MarkJobRunning | src/async/redis-store.ts:235-280 | claims exactly queued jobs and jobs whose lease ran out, one attempt more, indexed by the new lease end |
| ClaimLock.ClaimIsAtomic | src/async/redis-store.ts:235-280 | command by command, with unique tokens and no claimer outliving its lock before it wrote: at its write the record is the one it read, unless another method wrote it, and may be claimed |
| ClaimLock.LeaseExcludes | src/async/redis-store.ts:244-262 | then after a claim no other claimer changes the record or is told that the job is its own while the lease lasts |
| ClaimLock.ClaimCompletes | src/async/redis-store.ts:235-280 | a claimer that finds the lock free and the job claimable gets the job, one attempt more, and leaves the lock free |
| ClaimLock.ClaimRefused | src/async/redis-store.ts:238-258 | one that finds the lock taken, or the job gone or not claimable, is turned away and writes nothing |
| ClaimLock.OwnsExactly | src/async/redis-store.ts:260-274 | in every run a claimer is told that the job is its own exactly when its write was answered |
| ClaimLock.FreesOwn | src/async/redis-store.ts:275-279 | a claimer within its time to live frees its lock |
| ClaimLock.OutlivedClaim | src/async/redis-store.ts:238-239 | a claimer whose lock ran out between its read and its write claims the job beside the next call |
| ClaimLock.ClaimRunsOut | src/async/redis-store.ts:238-239 | such runs exist for every queued job |
| ReadyIndex.RedisStore.RequeueJob | src/async/redis-store.ts:311-325 | the job is queued again without a lease and indexed now |
| ReadyIndex.ListByScan | src/async/store.ts:98-114 | at most limit ready jobs by creation time, none left out that is older than a listed one; with room for all exactly the ready jobs |
| ReadyIndex.QueueStats | src/async/queue-stats.ts:65-92 | total, the number of ready jobs and the age of the oldest, the retryable failures, and per kind and status that occurs the count and the oldest age |
| ReadyIndex.StatsMatchScan | src/async/queue-stats.ts:86-89 | over a store's records the ready figure is the size of the scan |
| Redaction.MembersRedacted | src/flow/redaction.ts:58-74 | an object is redacted member by member, each by its own property, and keeps its keys |
| Redaction.Idempotent | src/flow/redaction.ts:54-107 | redacting twice is redacting once, for every schema |
| Redaction.Survives | src/flow/redaction.ts:44-53 | at every path of the value on which no assigned node is annotated, under whichever union members, redaction keeps the scalar, the keys or the length, whatever is redacted beside it |
| Redaction.OnlyMasks | src/flow/redaction.ts:54-107 | every path of the result is a path of the value, holding what stood there or the placeholder, and null exactly where null stood |
| Redaction.ShapeKept | src/flow/redaction.ts:54-107 | null stays null and nothing becomes null; where the schema, behind any wrappers and union members, assigns no annotation to the value itself, it keeps its keys or length |
| Redaction.PlainUntouched | src/flow/redaction.ts:44-53 | in particular, where nothing is annotated the value survives verbatim |
| Redaction.HiddenClean | src/flow/redaction.ts:54-107 | where a schema's walk hides another schema's annotations, no annotated position keeps anything but null or the placeholder |
| Redaction.Exposed | src/flow/redaction.ts:54-107 | where it does not, some value keeps something at an annotated position |
| Redaction.LeaksExactly | src/flow/redaction.ts:44-53 | redaction by a schema leaves no annotated position raw, for every value, exactly when the schema hides its own annotations |
| Redaction.WalkStopsShort | src/flow/redaction.ts:68-91 | annotations in record value types, later or refined union members, suspended schemas and tuple elements behind the rest element are not redacted |

## Left out

- FlowOnce.LeaseOnce: assumes reliable appends and reads, which the code does not enforce.
- BookingOnce.EffectfulOnceOverLeases: leases of one operation do not overlap in time; store leases do not guarantee it.
- HeartbeatOrder.OrderCandidateGroups: shares are exact rationals, not floating-point quotients; weights are finite, as the request parser makes them.
- CanonicalReadable.CanonicalExactly: numbers are integers printed in decimal; lone surrogates do not exist in the strings.
- Redaction.LeaksExactly: quantifies over all JSON values, not only those the schema accepts, so a schema may be condemned by an array that is shorter than the tuple's own minimum or by a value of no union member; property names are distinct and symbol-named properties do not exist.
- Redaction.Redact: a suspended node holds a finite schema, so schemas that refer to themselves are not represented; the walk does not enter suspended nodes.
- ReadyIndex.QueueStats: the list of failed refreshes by service and scope, and the sorting of the buckets.
- ReadyIndex.RedisStore.ListReadyJobs: store methods are atomic; single Redis commands of two methods interleave only in `ClaimLock`, which leaves out the ready set.
- Journals.RedisJournal.Append: no time to live, and rows hold only values that JSON text can carry.
- PostgresAppend.SeqIsCommitOrder: nothing is purged.
- Journal rows leave out the columns that are constant over an operation (operation, flow, version, plan hash), the clock and the fuzzy resolutions.
- Step bodies, sessions, detectors and choosers are arbitrary functions; a step's retry schedule is part of its one call; a failing compensation handler is logged by the code and counts as done.
- Effect layers, scopes and fibers beyond "one session per segment entry"; metrics and logging.
- The read-flow wrapper with journal sampling, which runs the same fold.
- Budgets are integers, so the validator's rejection of fractional budgets is not modelled; an object's key order is by UTF-16 code units, as JavaScript compares strings.
- SHA-256 is a parameter of the plan hash.
- The availability job kinds, snapshot upserts and concurrency of the worker's drain.
- The in-memory store's and the Postgres store's lease fields: neither checks a live lease before claiming.
- Time to live of cached values in the single flight is modelled as expiry of the entry; that a waiting caller's timer fires is not stated.
- HTTP, Playwright, configuration parsing and everything imported from the scheduling kit.

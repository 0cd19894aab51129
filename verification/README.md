# A verified model of the durable BPMN saga engine

This project models the core of the engine in Dafny and proves what its design promises: that a crashing, re-walking
drive refines one uninterrupted run; that the region rules mean what they say about paths; that the saga ledger is
reversed in causal order under nested commits; and that every race decided by a plain INSERT has one winner. What the
functions of the model mean is stated apart from them, over flows, paths, rows and runs.

The database is an in-memory state, one batch is one atomic step, and a unique-key violation aborts the whole batch.
Drives, workers, timer alarms, requests and crashes are interleaved steps. Ids are fresh values, times are integers, and
condition evaluation, payload size and what a worker answers are functions given from outside. Where the source changes
rows step by step there is a class with those rows; each of its methods is proved against a function or a transition
relation on the rows, and the lemmas are about those.

| file | part of the repository |
|---|---|
| `Prelude.dfy` | the option type, runs, reachability and the invariance rule |
| `Rewalk.dfy`, `Refinement.dfy`, `Engine.dfy` | the single-token walk, its crash refinement, its methods and termination |
| `Semantics.dfy` | what a crashing run computes, said of the process and its workers alone |
| `ErrorRouting.dfy` | error boundaries and the climb over scopes |
| `ConcurrentWalks.dfy` | exclusive gateways under concurrent walks |
| `Graphs.dfy`, `Postorder.dfy`, `Dominators.dfy` | paths, depth-first numbering, the iterative dominator algorithm |
| `RegionRules.dfy`, `Regions.dfy`, `RegionLoop.dfy` | the region rules over paths, their validation, and a loop they admit |
| `RegionMeaning.dfy` | the graph and the accepted scopes, read off the sequence flows |
| `ScopeTree.dfy`, `Ledger.dfy`, `Shield.dfy` | scopes, the saga ledger, commits and what they shield |
| `ReversePass.dfy`, `OrderLimits.dfy`, `Compensation.dfy` | the reverse pass as steps, the limits of its order, and the source's loop |
| `BoundaryTimer.dfy`, `EventGateway.dfy` | the two timer races |
| `Broker.dfy` | the correlation broker |
| `Jobs.dfy`, `JobStore.dfy` | the lease machine of one job, and the table with its handlers |
| `CallResolution.dfy` | publish-time call resolution |
| `Tokens.dfy`, `Frontier.dfy` | token ids and variable scopes |

## Assumptions

- One drive of an instance runs at a time (the drive lock, or the single Workflow instance), except in
  `ConcurrentWalks`, `BoundaryTimer` and `EventGateway`, where any number are interleaved.
- Clocks do not run backwards, and an update is stamped no earlier than the updates before it.
- Flow ids of a gateway are distinct, ids contain no line terminators, and scope depth grows along parent links.
- A boundary event is entered from its host alone (`src/bpmn/validator.ts:1296-1312`), and node ids are distinct.
- `Engine.DriveParksOrEnds` takes a graph whose successors exist and whose flows have conditions where one may be needed.
- A reverse pass runs to its end before the walk goes on, so commits and passes do not interleave (`Shield`).

## Where code and documentation differ

- Accepted regions have a single exit, but a single entry only up to loops: a loop behind the join may lead back into the
  region (`RegionLoop.AcceptedButReentered`); a region is strictly single-entry exactly if there is no such loop
  (`RegionRules.SingleEntryExactly`).
- Rule 7 is implied by the others with one exception, a join that splits again (`RegionRules.LaminarExactly`).
- The nested commit of a transaction does not shield rows of transactions nested inside it from a later pass rooted at
  that transaction (`Shield.AfterNestedCommit`, `Shield.NestedCommitLeavesInner`).
- The lineage filter follows links of live tokens only, so it blocks the live tokens and their parents and no others
  (`ReversePass.BlockedIsNear`). At one moment that is all it should block exactly if each live token with a dead parent
  has a grandparent that is live or has a live child, or none (`ReversePass.FilterExactly`).
- The straggler scan itself removes the tokens the filter follows. A branch token's position is never advanced, so in
  nested regions the first scan settles the outer branch token against the job at its position while its inner branch is
  still in flight; from then on the rows above it are free, and a straggler of the inner branch can be compensated after
  them (`OrderLimits.ScanBreaksOrder`, which starts from tokens all of whose ancestors are live). Every pass keeps the
  order exactly if no live cohort token has an ancestor beyond its parent, as in a region that is not nested
  (`ReversePass.ReverseOrder`, `OrderLimits.OrderExactly`).
- A later row of a parent token can be overtaken by an earlier row of a child even there, while a live token holds it
  (`OrderLimits.OvertakenExactly`, `OrderLimits.ParentRowOvertaken`).
- An expired subscription is never removed by expiry: until it is superseded no other instance can register and no
  message correlates (`Broker.ExpiredSubscriptionStarves`).
- A depth beyond the cap ends call resolution at once, so a cycle under a later call goes unreported; publishing is
  refused either way (`CallResolution.ResolveCallActivities`, `CallResolution.DeepCallHidesCycle`).
- A flow id with a hash, digits, a colon and a further character in it defeats the token id pattern
  (`Tokens.ParseInvertsExactly`).

## Model

| member | source | states |
|---|---|---|
| `Refinement.RunRefines` | src/runtime/engine.ts:796-835 | after any run of drives, crashes and worker reports, the rows are, up to being parked, those of the uninterrupted run at some step |
| `Refinement.StepRefines` | src/runtime/forward-task.ts:201-275 | every micro-step of a crashing drive is one step of the uninterrupted run or none |
| `Refinement.SettledRunsAgree` | src/runtime/engine.ts:796-835 | two runs that reached a terminal status, however often either crashed, agree on variables, decisions, cursor, jobs and snapshots |
| `Refinement.MergedInWalkOrder` | src/runtime/forward-task.ts:460-679 | in every reachable state the merged outputs are exactly those of the completed visits on the recorded trail of the uninterrupted run, merged in its order |
| `Refinement.MergedDistinct` | src/runtime/forward-task.ts:466-468 | no visit (element, occurrence) is merged twice |
| `Refinement.RewalkIsWriteFree` | src/runtime/forward-task.ts:143-199 | before the frontier a rewalk changes no row and repeats the step the uninterrupted run took |
| `Refinement.RecordedIsWriteFree` | src/runtime/engine.ts:940-942 | a visit whose effect is recorded fast-forwards to the recorded successor without a write |
| `Refinement.GoRecords` | src/runtime/forward-task.ts:201-275 | leaving a visit records it with the successor taken, and only below the loop cap |
| `Refinement.FrontierStep` | src/runtime/forward-task.ts:236-275 | at the frontier a drive either parks or takes exactly the next step of the uninterrupted run |
| `Refinement.IdealSound` | src/runtime/engine.ts:796-829 | the uninterrupted run keeps its trail recorded, nothing recorded ahead of it, and every output merged once |
| `Refinement.IdealSettles` | src/runtime/engine.ts:296-296 | a terminal state is never left |
| `Refinement.NothingIsLost` | src/runtime/engine.ts:796-835 | from any crashed or parked state every later state of the uninterrupted run can still be reached |
| `Refinement.ResumeAdvances` | src/runtime/engine.ts:796-835 | a fresh drive or the awaited worker takes the next step of the uninterrupted run |
| `Rewalk.FirstMatchDecides` | src/runtime/engine.ts:1175-1222 | the first non-default flow in document order that is not plainly untaken decides: it is taken, or its evaluation error or missing condition ends the visit |
| `Rewalk.FirstMatchFallsBack` | src/runtime/engine.ts:1223-1229 | with every condition untaken the choice is the default flow |
| `Rewalk.FallbackIsFirstDefault` | src/runtime/engine.ts:1223-1244 | the fallback is the first default flow, and there is no path exactly if no flow is default |
| `Rewalk.ChooseExactly` | src/runtime/engine.ts:1175-1244 | the choice is right, and no other would be: the only flow as it is; else the first flow that is not plainly untaken, with its error or missing condition if it has one; else the first default flow; else no path |
| `Rewalk.MergeOverlays` | src/util.ts:66-71 | a merge holds the bindings of the output and otherwise the old ones, and nothing else does |
| `Semantics.RunIsExecution` | src/runtime/engine.ts:796-835 | after any crashing run the rows are those of an execution of the process: a trail through the graph in which each gateway took the flow its conditions pick, each worker saw the variables merged before it, each output was overlaid and each caught error routed; and an ended run has ended for a reason its rows show |
| `Semantics.StopsExactly` | src/runtime/engine.ts:1155-1266 | an incident of each kind is raised exactly in its case, and an instance completes exactly at an end event |
| `Semantics.LastOutputDecides` | src/runtime/forward-task.ts:534-539 | after any run a variable has the value of the last merged output that defines it, else its initial value if any |
| `Semantics.RefusalsBounded` | src/runtime/forward-task.ts:557-599 | over any run the strikes against an element are the outputs refused at its visits, at most two |
| `Refinement.ChosenTarget` | src/runtime/engine.ts:1103-1113 | with unique flow ids the recorded flow id leads to the target the choice had |
| `Engine.PassIsARun` | src/runtime/engine.ts:796-829 | one uncrashed drive is a finite run of micro-steps, on every graph |
| `Engine.PassRefines` | src/runtime/engine.ts:796-835 | a whole drive from the start element carries the rows to those of a later step of the uninterrupted run |
| `Engine.RemainingDrops` | src/runtime/engine.ts:238-242 | each driven visit uses up one of the finitely many visits the loop cap admits |
| `Engine.DriveParksOrEnds` | src/runtime/engine.ts:796-829 | from any state of a crashing run over a closed graph a drive ends with the instance waiting for the open job at its cursor, or ended |
| `Engine.Instance.Loop` | src/runtime/engine.ts:796-829 | one pass ends on every graph, drives no element beyond the cap, and leaves the rows of Pass |
| `Engine.Instance.DriveLeaf` | src/runtime/engine.ts:805-809 | one leaf leaves the rows and answer of the row function |
| `Engine.Instance.EnterStart` | src/runtime/engine.ts:940-961 | write-free if the visit is marked, else mark and transition |
| `Engine.Instance.DecideGateway` | src/runtime/engine.ts:1155-1305 | follow the recorded flow, or record the flow the conditions pick with the transition, or raise the incident |
| `Engine.Instance.RecordDecision` | src/runtime/engine.ts:1268-1303 | the plain insert with its transition; if the visit is decided already nothing changes and the winner is followed |
| `Engine.Instance.EvaluateFlows` | src/runtime/engine.ts:1179-1229 | the condition loop gives the one right answer for these flows and variables |
| `Engine.Instance.DriveForwardServiceTask` | src/runtime/forward-task.ts:201-275 | applied, completed, failed, created and parked visits, against the row functions |
| `Engine.Instance.CreateForwardJob` | src/runtime/forward-task.ts:277-349 | an existing job is kept, an oversized input is an incident, otherwise one open job with a snapshot of the variables |
| `Engine.Instance.ApplyForwardCompletion` | src/runtime/forward-task.ts:460-679 | the token moves on exactly if the merge is within the limit, and then the variables are the old ones overlaid with the output; otherwise they stay, and the job is reopened or, at the threshold, the instance poisoned |
| `Engine.Instance.HandleForwardFailure` | src/runtime/forward-task.ts:681-813 | a routed business error advances to its boundary target, anything else is an incident |
| `Engine.Instance.AppliedForwardOutcome` | src/runtime/forward-task.ts:143-199 | the write-free successor of an applied job |
| `Engine.Instance.ParkWaiting` | src/runtime/incidents.ts:27-42 | parking writes nothing once parked here |
| `ErrorRouting.MatchErrorBoundaryOn` | src/runtime/forward-task.ts:72-84 | the loop finds the first exact boundary, else the last catch-all |
| `ErrorRouting.MatchOnIs` | src/runtime/forward-task.ts:72-84 | a host catches a code exactly if it has a boundary for it, and an exact one beats the catch-all |
| `ErrorRouting.MatchIgnoresOrder` | src/runtime/forward-task.ts:68-71 | with distinct codes per host the match does not depend on node order |
| `ErrorRouting.ErrorCatchTarget` | src/runtime/forward-task.ts:101-110 | the climb over enclosing scopes computes the specified target |
| `ErrorRouting.CaughtByInnermost` | src/runtime/forward-task.ts:101-110 | the innermost scope that catches the code takes it; none does exactly if none on the chain has a boundary |
| `ErrorRouting.CaughtExactly` | src/runtime/forward-task.ts:72-110 | the first host from the throwing element outwards with a boundary for the code catches it, by the first boundary with the code or else the last without one; nobody does exactly if no host has one |
| `ConcurrentWalks.RoutesComparable` | src/runtime/engine.ts:1155-1305 | of any two interleaved walks, at the same or different times, one route is a prefix of the other, whatever the variables were |
| `ConcurrentWalks.DecisionsFinal` | src/runtime/engine.ts:1268-1303 | a recorded gateway choice never changes |
| `ConcurrentWalks.SameRecordSameRoute` | src/runtime/engine.ts:1163-1166 | walks that follow one record agree step by step |
| `ConcurrentWalks.DecisionsWereRight` | src/runtime/engine.ts:1175-1303 | every recorded choice is the one its gateway makes under the variables of some earlier moment, and a walk stops only at a gateway that had no flow to take |
| `Postorder.DepthFirst.Visit` | src/bpmn/regions.ts:59-65 | the depth-first search appends exactly the newly reachable vertices, each after the unfinished vertices it reaches |
| `Dominators.NumberVertices` | src/bpmn/regions.ts:58-67 | the reverse postorder numbers exactly the reachable vertices and gives each but the entry a smaller-numbered predecessor |
| `Dominators.Intersect` | src/bpmn/regions.ts:70-77 | intersect ends and returns the nearest common ancestor of two tree vertices |
| `Dominators.FixpointExact` | src/bpmn/regions.ts:78-94 | at the fixpoint a vertex lies on the tree chain of another exactly if it lies on every path to it |
| `Dominators.Compute` | src/bpmn/regions.ts:52-95 | the loop ends; the map is defined on exactly the reachable vertices, and its chains are path domination |
| `Dominators.PotentialDrops` | src/bpmn/regions.ts:88-91 | every change of the tree lowers a potential, so the fixpoint loop terminates |
| `Dominators.MovesUp` | src/bpmn/regions.ts:80-92 | a pass only moves immediate dominators up and never drops a true dominator |
| `Regions.BuildCfg` | src/bpmn/regions.ts:102-136 | the edge loops build exactly the specified control-flow graph |
| `Regions.BuildTrees` | src/bpmn/regions.ts:138-151 | both trees represent path domination and path post-domination |
| `Regions.ValidateRegions` | src/bpmn/regions.ts:97-248 | no error is reported exactly if a choice of joins meets all seven rules, that is, exactly if the scope is structured in the sense of AcceptedExactly |
| `Regions.MatchSplits` | src/bpmn/regions.ts:153-221 | the split loop reports nothing exactly if the joins match one to one and rules 5 and 6 hold |
| `Regions.CheckJoins` | src/bpmn/regions.ts:223-228 | every concurrent merge is a matched join |
| `Regions.CheckLaminar` | src/bpmn/regions.ts:230-245 | the pairwise loop finds exactly the partial overlaps |
| `RegionRules.RegionExitsThroughJoin` | src/bpmn/regions.ts:173-212 | on every path from an accepted split to the sink each vertex before the join is dominated by the split and post-dominated by the join, and the join occurs |
| `RegionRules.AcceptedRegions` | src/bpmn/regions.ts:153-221 | if no error is reported, split to join is injective and every path from a split to the sink stays between split and join until it meets the join |
| `RegionRules.MemberStep` | src/bpmn/regions.ts:202-212 | an edge from a member other than the join leads to a member |
| `RegionRules.SideEntryIsPastJoin` | src/bpmn/regions.ts:162-166 | an edge into a region from outside starts at a vertex that the split reaches only through the join |
| `RegionRules.SingleEntryExactly` | src/bpmn/regions.ts:162-166 | an accepted region is strictly single-entry exactly if no path leads from the join back to a member without passing the split |
| `RegionLoop.AcceptedButReentered` | src/bpmn/regions.ts:97-248 | a concrete model that all rules accept although a loop enters its region behind the split |
| `RegionRules.OverlapIsNested` | src/bpmn/regions.ts:230-245 | overlapping accepted regions are nested unless a join is the other split |
| `RegionRules.OverlapExactly` | src/bpmn/regions.ts:230-245 | two accepted regions overlap partially exactly if the join of one is the split of the other |
| `RegionRules.LaminarExactly` | src/bpmn/regions.ts:230-245 | given rules 1 to 6, rule 7 holds exactly if no matched join splits again |
| `RegionMeaning.GraphFollowsFlows` | src/bpmn/regions.ts:102-136 | the graph has a vertex for each node a token can stand on or a routing boundary event, and between them exactly the sequence flows and the steps from host to boundary event |
| `RegionMeaning.GraphEnds` | src/bpmn/regions.ts:124-136 | tokens leave at end events and at nodes without a flow inside the scope |
| `RegionMeaning.GraphStarts` | src/bpmn/regions.ts:121-123 | tokens enter at the first start event only |
| `RegionMeaning.AcceptedExactly` | src/bpmn/regions.ts:97-248 | a scope is accepted exactly if each split has a join of its kind that is nearest on every way on and entered past it, each join has its split, no flow leaves a region but through its join, only gateways and boundary events inside a region have several incoming flows, and no join splits again |
| `RegionMeaning.RacingTaskRejected` | src/bpmn/regions.ts:188-200 | a task inside a region with two incoming flows of the scope makes every choice of joins fail |
| `ScopeTree.SubtreeScopeIds` | src/bpmn/scope-tree.ts:17-27 | the nested loops return exactly the scopes whose chain holds the root |
| `ScopeTree.AncestorScopeIds` | src/bpmn/scope-tree.ts:30-35 | the strict ancestors, inner to outer |
| `ScopeTree.NearestEnclosingTx` | src/bpmn/scope-tree.ts:38-44 | the loop finds the first transaction of the chain |
| `ScopeTree.OwnedScopeIds` | src/bpmn/scope-tree.ts:47-49 | the subtree scopes whose nearest transaction is the given one |
| `ScopeTree.IsStrictAncestor` | src/bpmn/scope-tree.ts:52-60 | strict enclosure, with the process enclosing every scope |
| `ScopeTree.EligibleCommittedLocalScopeIds` | src/bpmn/scope-tree.ts:66-71 | the subtree scopes whose nearest transaction lies strictly inside the root |
| `ScopeTree.SubtreePartition` | src/bpmn/scope-tree.ts:17-71 | the subtree of a transaction is the disjoint union of what it owns and what is eligible for it |
| `ScopeTree.OwnedEligible` | src/bpmn/scope-tree.ts:66-71 | a scope owned by a transaction is eligible for exactly the roots strictly outside it |
| `ScopeTree.NearestIsInnermost` | src/bpmn/scope-tree.ts:38-44 | the nearest transaction lies inside every other transaction of the chain |
| `ScopeTree.StrictAncestorAsymmetric` | src/bpmn/scope-tree.ts:52-60 | no two scopes strictly enclose each other |
| `ScopeTree.SubtreesLaminar` | src/bpmn/scope-tree.ts:17-27 | two subtrees are disjoint or nested |
| `Ledger.LedgerTable.InsertSagaStep` | src/persistence/saga.ts:152-213 | insert with the next sequence number unless the visit has a row |
| `Ledger.LedgerTable.MarkScopeStepsCommitted` | src/persistence/saga.ts:362-373 | the flip of exactly the matching rows |
| `Ledger.LedgerTable.CommitTransaction` | src/runtime/engine.ts:996-1002 | seal the subtree of an outermost transaction, shield what a nested one owns |
| `Ledger.LedgerTable.SelectSubtreeSteps` | src/persistence/saga.ts:223-253 | the reverse cursor loop |
| `Ledger.SelectedExactly` | src/persistence/saga.ts:223-253 | the cursor returns exactly the selectable rows, highest sequence number first |
| `Ledger.InsertKeepsSeqNumbers` | src/persistence/saga.ts:137-151 | sequence numbers stay 1, 2, 3, … and visits stay unique |
| `Ledger.InsertAddsOne` | src/persistence/saga.ts:152-213 | an insert adds one row with the given scope, token and status, or none if its visit has one |
| `Ledger.SealsExactly` | src/runtime/engine.ts:997-999 | a commit seals exactly if the instance is not a child and no transaction encloses the committed one |
| `Ledger.CommitExactly` | src/runtime/engine.ts:996-1002 | such a commit makes the open and shielded rows inside the transaction committed, any other shields the open rows it is innermost around, and no other row changes |
| `Ledger.SelectableExactly` | src/persistence/saga.ts:223-253 | a pass rooted at a transaction selects the open and failed rows inside it and the shielded ones of transactions further in |
| `Shield.RunSound` | src/persistence/saga.ts:330-373 | in every run rows in compensation belong to the pass in progress and locally committed rows to a transaction |
| `Shield.NestedCommitShields` | src/runtime/engine.ts:996-1002 | a commit of a child instance or under another transaction shields each row it owns, and makes exactly the pending ones locally committed |
| `Shield.ShieldHolds` | src/runtime/engine.ts:980-1033 | after a commit of a child instance or under another transaction only passes rooted strictly outside the transaction ever pick up its rows |
| `Shield.LocallyCommittedPickedBy` | src/persistence/saga.ts:223-253 | a locally committed row is selected by exactly the roots strictly outside its transaction |
| `Shield.LocalUntilTakenUp` | src/persistence/saga.ts:223-253 | over any run a locally committed row stays so, open to every root strictly outside, until such a pass takes it up or an outermost commit over it seals it |
| `Shield.SealHolds` | src/persistence/saga.ts:362-373 | no row inside a transaction committed by a root instance with no transaction around it is ever picked up again |
| `Shield.AfterNestedCommit` | src/runtime/engine.ts:996-1002 | after its nested commit a transaction still sees exactly the selected rows it does not own |
| `Shield.NestedCommitLeavesInner` | src/runtime/engine.ts:996-1002 | a run in which the row of an inner transaction is picked by a pass rooted at the middle one after both have committed |
| `Shield.ProcessSeesAll` | src/persistence/saga.ts:223-253 | a pass rooted at the process selects every row not settled for good |
| `ReversePass.ReverseOrder` | src/runtime/compensation.ts:139-292 | on shallow tokens, over every interleaving: of two rows begun in some order the second is never a later row of the first one's lineage, and later lineage rows are settled before a row begins |
| `OrderLimits.OrderExactly` | src/runtime/compensation.ts:139-292 | every pass over given live tokens, whatever their jobs and the ledger, keeps the order if and only if the tokens are shallow; for later rows on descendants, and for rows related either way |
| `OrderLimits.ScanBreaksOrder` | src/runtime/compensation.ts:315-339 | a run from link-closed tokens whose scan drops an outer branch token and which then begins a lineage out of order |
| `ReversePass.PickedBegins` | src/runtime/compensation.ts:209-215 | on shallow tokens a row begins only when its lineage is quiet and no later row of it is left |
| `ReversePass.PickedIsQuiet` | src/runtime/compensation.ts:209-215 | if the grandparents of live tokens are near, no live token descends from the row that begins |
| `ReversePass.SettledMeansDone` | src/runtime/compensation.ts:202-208 | the pass reports compensated only with nothing selected, no live cohort token, every begun row compensated and every completed cohort job ledgered |
| `ReversePass.StragglersSettled` | src/runtime/compensation.ts:315-339 | a job of a token live under the root at the start that has completed has its row when the pass reports compensated: compensated if it has a handler under the root, marked as not required without one |
| `ReversePass.BlockedIsNear` | src/persistence/saga.ts:118-135 | the filter blocks exactly the live tokens and their parents |
| `ReversePass.FilterExactly` | src/persistence/saga.ts:118-135 | the filter blocks exactly the tokens with a live cohort descendant if and only if every live token with a dead parent has a grandparent that is live or has a live child, or none |
| `OrderLimits.LinkClosedFilters` | src/persistence/saga.ts:118-135 | on link-closed tokens the filter blocks exactly the tokens with a live cohort descendant |
| `OrderLimits.OvertakenExactly` | src/persistence/saga.ts:118-135 | an open row is overtaken by an earlier one exactly if it and all later open rows are held by live tokens on or right below their token while some earlier open row is not |
| `OrderLimits.ParentRowOvertaken` | src/runtime/compensation.ts:209-215 | a run from shallow tokens in which a child row begins before a later row of its parent token |
| `Compensation.AncestorsOf` | src/persistence/saga.ts:121-131 | the guarded loop collects exactly the tokens above one, as far as live links lead |
| `Compensation.FilterLineageQuiesced` | src/persistence/saga.ts:118-135 | the set-building loops keep exactly the quiesced steps, in order |
| `Compensation.FirstIsPicked` | src/runtime/compensation.ts:209-215 | the first filtered step is the highest unblocked selected row |
| `Compensation.Pass.LedgerStragglers` | src/runtime/compensation.ts:315-339 | the scan settles each live cohort token against its forward job |
| `Compensation.Pass.RetainStraggler` | src/runtime/compensation.ts:473-513 | ledger the straggler and consume its token |
| `Compensation.Pass.CreateCompensationJob` | src/runtime/compensation.ts:609-641 | create the job and bind it to the step in one batch |
| `Compensation.Pass.MarkStepCompensated` | src/runtime/compensation.ts:646-654 | a Finish step of the pass |
| `Compensation.Pass.MarkStepCompensationFailed` | src/runtime/compensation.ts:656-678 | a GiveUp step of the pass |
| `Compensation.Pass.Turn` | src/runtime/compensation.ts:181-291 | one turn of the loop: scan, barrier, filter and dispatch; it reads again only after the rows have come closer to settled |
| `Compensation.Pass.RunCompensation` | src/runtime/compensation.ts:139-292 | the loop ends and is a run of pass steps; it waits only with every straggler settled that can be, and for a live token, a blocked lineage or the picked row's open job |
| `BoundaryTimer.OneWinner` | src/runtime/boundary-timer.ts:157-198 | at most one claim-carrying batch commits, and the output is merged at most once and only if the timer was cancelled |
| `BoundaryTimer.WalksAgree` | src/runtime/forward-task.ts:230-234 | all walks that leave the visit go the same way, on the boundary exactly if the timer fired |
| `BoundaryTimer.DecisionFinal` | src/persistence/timers.ts:97-118 | once an outcome is recorded the rows are final in every run: each later batch loses its claim and changes nothing |
| `BoundaryTimer.WayExplained` | src/runtime/forward-task.ts:201-245 | the way taken tells what happened: fired, completed and merged once, or failed with a code that is caught there |
| `BoundaryTimer.HazardExplained` | src/runtime/boundary-timer.ts:207-243 | the exhaustion incident is raised only for a failure that nothing catches, on a timer that has not fired |
| `BoundaryTimer.LaterDriveFollows` | src/runtime/forward-task.ts:230-240 | once the token has left, a later drive repeats its way without writing |
| `BoundaryTimer.RunSound` | src/runtime/boundary-timer.ts:389-453 | in every interleaving outcome, timer row, job, cursor and merge count fit together |
| `BoundaryTimer.Visit.ApplyForwardCompletion` | src/runtime/forward-task.ts:471-475 | re-read the job; unless applied meanwhile, commit everything or convert to the recorded outcome |
| `BoundaryTimer.Visit.RouteBusinessError` | src/runtime/forward-task.ts:724-781 | re-read the job; unless applied meanwhile, claim, route and mark together, or convert |
| `BoundaryTimer.Visit.SettleBoundaryTimerCancel` | src/runtime/boundary-timer.ts:207-243 | settle on exhaustion, or convert to the boundary path |
| `BoundaryTimer.Visit.CommitFire` | src/runtime/boundary-timer.ts:436-453 | claim, abandon a live job and advance, or skip; on a wake the answer follows the recorded outcome |
| `BoundaryTimer.Visit.SettleOverdueOnWake` | src/runtime/boundary-timer.ts:593-643 | fire inline, re-park an early wake, or fall through |
| `BoundaryTimer.Visit.DriveForwardServiceTask` | src/runtime/forward-task.ts:201-245 | a drive stays put exactly while the job is live; with nothing decided a completed job advances and merges, a caught failure is routed to its boundary, and any other failure is settled as exhausted |
| `EventGateway.RecordedBranchAdvances` | src/runtime/event-gateway.ts:157-225 | every actor that advances follows the recorded branch |
| `EventGateway.AdvancesAgree` | src/runtime/event-gateway.ts:157-225 | all actors that advance take the same branch |
| `EventGateway.MergedOnlyForWinner` | src/runtime/event-gateway.ts:428-539 | a payload is merged at most once and only for a recorded message branch |
| `EventGateway.DecidedRowsFinal` | src/runtime/event-gateway.ts:528-537 | once a branch is recorded no writer changes the rows |
| `EventGateway.RunSound` | src/runtime/event-gateway.ts:428-626 | the rows always show the effects of exactly the recorded branch on cursor, variables, timer and every subscription, and nothing else |
| `EventGateway.GatewayVisit.EbgBranches` | src/runtime/event-gateway.ts:110-120 | the classification loop |
| `EventGateway.GatewayVisit.WinnerNextOfRecorded` | src/runtime/event-gateway.ts:123-133 | the successor of the recorded flow |
| `EventGateway.GatewayVisit.ApplyEbgMessage` | src/runtime/event-gateway.ts:428-539 | record, merge, consume and supersede together, or follow the record |
| `EventGateway.GatewayVisit.FireTimer` | src/runtime/event-gateway.ts:559-626 | record, flip and supersede together, or skip |
| `EventGateway.GatewayVisit.DriveEventBasedGateway` | src/runtime/event-gateway.ts:157-225 | follow the record; else the first branch of the pending message’s name gets it, else the first with a stored message of its name, else the first unresolved one with a buffered message; else nothing changes and the drive waits; a pending message for any branch is consumed |
| `EventGateway.FirstOfferedIs` | src/runtime/event-gateway.ts:185-205 | the first branch in document order that is offered a message gets it |
| `EventGateway.DeliveredExactly` | src/runtime/event-gateway.ts:171-205 | which branch receives which message, in terms of the flows, the names and the subscriptions |
| `Broker.RunSound` | src/durable-objects/correlation-broker.ts:69-129 | an unexpired subscription finds the buffer empty, subscription and consumed marker exclude each other, an alarm precedes the earliest expiry, and the dedup table tracks buffer and correlations |
| `Broker.StatusStep` | src/durable-objects/correlation-broker.ts:146-227 | a message's status changes only from new to correlated, buffered or late, and from buffered to correlated or expired |
| `Broker.FateIsFinal` | src/durable-objects/correlation-broker.ts:149-159 | correlated, late and expired are final over any run |
| `Broker.CorrelatedOnceInOrder` | src/durable-objects/correlation-broker.ts:88-112 | no message is correlated twice, and buffered messages come out in order of receipt |
| `Broker.CorrelatesExactly` | src/durable-objects/correlation-broker.ts:161-191 | a new message correlates at once exactly if a subscription is there and unexpired |
| `Broker.NewMessageFate` | src/durable-objects/correlation-broker.ts:161-227 | otherwise it is late exactly if the key is consumed, and buffered for an hour exactly if not |
| `Broker.NeverExpiresEarly` | src/durable-objects/correlation-broker.ts:292-317 | over any run a buffered message stays, is correlated, or has expired with its time over |
| `Broker.ExpiredSubscriptionStarves` | src/durable-objects/correlation-broker.ts:74-86 | until it is superseded an expired subscription stays in place and no message correlates |
| `Broker.CorrelationBroker.RegisterSubscription` | src/durable-objects/correlation-broker.ts:69-129 | a broker step; rejected exactly for another holder, correlated exactly if free and an unexpired message waits, and then with the one received first |
| `Broker.CorrelationBroker.PublishMessage` | src/durable-objects/correlation-broker.ts:146-227 | a broker step; duplicate exactly if seen, delivered exactly if new with an unexpired subscription, too late exactly if the key is consumed, kept otherwise |
| `Broker.CorrelationBroker.SupersedeSubscription` | src/durable-objects/correlation-broker.ts:139-144 | drops the subscription exactly for its own instance and element |
| `Broker.CorrelationBroker.OnAlarm` | src/durable-objects/correlation-broker.ts:257-261 | sweep, then arm for the earliest expiry left |
| `Broker.CorrelationBroker.EarliestBuffered` | src/durable-objects/correlation-broker.ts:275-285 | the earliest unexpired buffered message, if any |
| `Broker.CorrelationBroker.SweepBuffer` | src/durable-objects/correlation-broker.ts:292-317 | the loop drops and marks exactly the due messages |
| `Broker.CorrelationBroker.NextExpiry` | src/durable-objects/correlation-broker.ts:328-336 | the earliest expiry of the buffer |
| `Jobs.AttemptsBounded` | src/persistence/jobs.ts:42-169 | attempts never exceed the retry limit plus the poison threshold minus one, a parked job is below its limit, and attempts count the leases |
| `Jobs.BoundIsReached` | src/runtime/forward-task.ts:557-600 | a run in which the attempt bound is reached |
| `Jobs.LeasesExclusive` | src/persistence/jobs.ts:42-87 | no second lease before the first lapsed or its holder reported |
| `Jobs.StaleCallbackIgnored` | src/persistence/jobs.ts:359-421 | a callback with the token of an earlier lease changes nothing |
| `Jobs.DeadLetterExcludesLease` | src/persistence/jobs.ts:344-353 | the dead-letter claim and a lease never both succeed on a job |
| `Jobs.FailedIsFinal` | src/persistence/jobs.ts:379-400 | nothing but an operator reset reopens a failed job |
| `Jobs.FailureExactly` | src/persistence/jobs.ts:379-421 | a failure report counts exactly for the holder: a technical one parks the job while its attempts are below the limit, however stale its read, and any other ends it |
| `Jobs.ReclaimExactly` | src/persistence/jobs.ts:132-170 | a reclaim acts exactly on a lease that lapsed and still stands: parks below the limit, fails at it |
| `Jobs.LeasedExactly` | src/persistence/jobs.ts:59-85 | a job can be leased exactly if it is new, or parked with its backoff over |
| `Jobs.BackoffRespected` | src/persistence/jobs.ts:400-421 | over any run the next lease of a parked job is handed out after its backoff |
| `Jobs.RunSound` | src/index.ts:918-940 | budget, token and stale reads stay consistent in every interleaving of requests |
| `JobStore.FirstLeasableIs` | src/persistence/jobs.ts:59-85 | the lease takes at most the limit, only leasable rows, each once, and all of them if fewer |
| `JobStore.ReclaimedNotLeasable` | src/index.ts:927-938 | a lapsed lease is parked or exhausted, never handed on in the same activation |
| `JobStore.Store.ReclaimPrePass` | src/index.ts:934-940 | the pre-pass parks or exhausts exactly the lapsed leases |
| `JobStore.Store.SelectLeasable` | src/persistence/jobs.ts:63-73 | the ordered, limited subquery |
| `JobStore.Store.LeaseOnce` | src/index.ts:918-960 | reclaim, then lease rows that were leasable before; each row is leased, parked, failed or left as its own state says |
| `JobStore.Store.FailExpiredLease` | src/persistence/jobs.ts:161-170 | fails exactly a lapsed lease |
| `JobStore.Store.ParkExpiredLease` | src/persistence/jobs.ts:132-147 | parks exactly a lapsed lease |
| `JobStore.Store.ReadCallback` | src/index.ts:1095-1110 | repeats a recorded answer, acknowledges an ended job or instance without effect |
| `JobStore.Store.FinishComplete` | src/index.ts:1112-1123 | applied exactly if the token still holds the row; otherwise the answer of a raced duplicate, or a conflict |
| `JobStore.Store.FinishFail` | src/index.ts:1161-1185 | the same for a failure that read the attempt count earlier |
| `JobStore.Store.HandleCompleteJob` | src/index.ts:1088-1139 | repeats a recorded answer; completes the job exactly if the token holds the row |
| `JobStore.Store.HandleFailJob` | src/index.ts:1141-1185 | a business or final failure ends the job, a technical one parks while the budget lasts; applied exactly if the token holds the row |
| `CallResolution.ResolveCallActivities` | src/bpmn/call-resolution.ts:60-141 | no issue exactly if every call binds, the longest call chain is within the cap and no version below waits for a message or lacks a child; a cycle is reported exactly if some call reaches one and no call before it exceeds the cap |
| `CallResolution.WalkTree` | src/bpmn/call-resolution.ts:128-141 | the same for the bound versions, walked in order |
| `CallResolution.DeepCallHidesCycle` | src/bpmn/call-resolution.ts:132-139 | a concrete deep first call after which the cycle of the second is not reported |
| `CallResolution.Resolver.WalkRoot` | src/bpmn/call-resolution.ts:132-134 | one root: its depth is attained, and without a cycle issue everything walked so far is memoised |
| `CallResolution.Resolver.Walk` | src/bpmn/call-resolution.ts:98-127 | the memoised recursion ends on any version graph and returns an attained depth |
| `CallResolution.Verdict` | src/bpmn/call-resolution.ts:128-141 | what the finished memo and issues say about the whole tree |
| `CallResolution.CycleNotAcceptable` | src/bpmn/call-resolution.ts:99-102 | a reachable cycle has call chains of every length |
| `CallResolution.MemoHasNoCycle` | src/bpmn/call-resolution.ts:96-127 | without a cycle issue a memoised version reaches no cycle, and its memo bounds its call chains |
| `Tokens.ParseInvertsExactly` | src/persistence/tokens.ts:26-35 | parsing inverts the construction exactly if the flow id holds no hash, digits, colon and further character in a row |
| `Tokens.ParseInvertsBranch` | src/persistence/tokens.ts:26-35 | parsing inverts the construction for colon-free instance and flow ids |
| `Tokens.ParseInvertsRoot` | src/persistence/tokens.ts:25-32 | the root id parses as root |
| `Tokens.TokenIdsInjective` | src/persistence/tokens.ts:25-27 | token ids are injective and no branch id is a root id |
| `Tokens.ColonFlowParsedWrong` | src/persistence/tokens.ts:29-35 | a colon in the flow id makes the pattern match inside the flow |
| `Frontier.ResolveScope` | src/runtime/frontier.ts:42-59 | the two loops compute the layered scope |
| `Frontier.ScopeIsNearest` | src/runtime/frontier.ts:42-59 | each variable has the value of the nearest lineage token that defines it |
| `Frontier.ScopeElseRoot` | src/runtime/frontier.ts:57-58 | a variable no lineage token defines has the root value |
| `Frontier.LineageIsChain` | src/runtime/frontier.ts:46-56 | the lineage follows parent links, repeats no token, and ends only at a missing parent or a closed cycle |

## Left out

- Refinement.RunRefines: covers start events, service tasks, exclusive gateways and end events on a single token; scopes, receive tasks, timers and call activities are not walked, and history rows are kept only as the per-visit markers the fast-forward reads.
- Refinement.SettledRunsAgree: a worker's answer is fixed by visit and attempt, and technical retries within a lease are one report.
- BoundaryTimer.OneWinner: covers service-task hosts; receive tasks, scopes, calls and multi-instance hosts share the claim but not the rows. Poison reopening is excluded because its update is unguarded and relies on serialised drives.
- BoundaryTimer.LaterDriveFollows: states safety only; after a cancelled claim without an applied job (exhaustion followed by an operator retry) the unconditional claim of the completion batch aborts every time, and no progress is claimed.
- EventGateway.RunSound: a run may hand any payload to any message branch, which is more than the source does (what a drive hands over is in DeliveredExactly); it starts from a parked visit; broker registrations and the incident of a rejected one are left out, and the unused return value of the overdue settle (`src/runtime/event-gateway.ts:649`) is not modelled.
- ReversePass.ReverseOrder: the forward job of a live token is given; the lookup by position, call activity children and multi-instance iterations are left out. The pass may begin a row before it has scanned, which the source does not, so the theorem covers more runs; the failing runs of OrderLimits scan first.
- Compensation.Pass.LedgerStragglers: call activity tokens and the lookup of a job by container scope are left out.
- Compensation.Pass.RunCompensation: the branch for child instances and the wake channel are left out; a call returns where the source would wait.
- Engine.Instance.DriveLeaf: dispatches on start, service, gateway and end nodes only.
- Engine.Instance.DriveForwardServiceTask: the boundary-timer fast-forward is in BoundaryTimer, and the multi-instance path is left out.
- Engine.Instance.ApplyForwardCompletion: the ledger row, the branch overlay and the timer claim of the batch are in Ledger, Frontier and BoundaryTimer, not here.
- Engine.Instance.HandleForwardFailure: the scope drain is left out, and the timer settlement is in BoundaryTimer.
- Engine.Instance.AppliedForwardOutcome: the self-healing drain of a crashed scope exit is left out.
- Engine.Instance.ParkWaiting: the receive-task kind of park is left out.
- BoundaryTimer.Visit.RouteBusinessError: the second claim, for the timer of a catching scope, is left out.
- Shield.ShieldHolds: operator retry of a failed pass is left out.
- Broker.RunSound: each call of the broker is atomic; calls interleaved during the database writes of a sweep are not modelled.
- Jobs.RunSound: the row of one job; workspace and task-type filters, backoff values and jitter are parameters or left out, and so is the operator's reset.
- JobStore.Store.LeaseOnce: ordering by creation time is given as a sequence of ids; the workspace and task-type filters and the delivery of exhausted jobs are left out.
- CallResolution.ResolveCallActivities: the refinement of multi-instance step costs and the texts of the issues are left out.
- Regions.ValidateRegions: branch flow ids and the error texts are left out.
- ErrorRouting.ErrorCatchTarget: the scope drain after a catch is left out.
- The token-frontier walk over concurrent regions, join barriers and multi-instance fan-out: they rest on modules that are not part of this model.
- HTTP routing, authentication, the console, queries, XML parsing, expression interpretation, hashing, overlay offload and the Cloudflare runtimes: only atomic batches, unique-key aborts and fresh ids are kept.
- Most checks of the validator: taken as preconditions where a proof needs them.

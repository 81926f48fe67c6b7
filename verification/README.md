# ACT core: a verified model

ACT watches, budgets and governs AI agents. This project models the parts of its backend where several pieces of
state have to stay in step, and proves what the code promises about them.

- **Budgets** (`reservations.dfy`, `reservation_runs.dfy`, `guard.dfy`). Before an execution runs, a hold is placed on
  every budget that applies; afterwards the hold becomes the actual cost or is released. `Reservations` is the ledger;
  `ReservationRuns` splits every call into its database steps (lock, weigh, insert; select, commit) and lets any number
  of them interleave; `BudgetResolution` and `BudgetGuards` decide which budgets apply and which one binds.
- **Signed requests and grants** (`signing.dfy`, `grants.dfy`, `grant_runs.dfy`, `replay.dfy`). External callers sign a
  newline-joined text; grants are issued, revoked and swept away by mode changes, one call at a time and interleaved;
  each nonce is single-use within a sliding window.
- **Authorization** (`hierarchy.dfy`, `engine.dfy`, `cache.dfy`, `sod.dfy`). A role graph with two traversals,
  deny-wins evaluation, a versioned cache read concurrently with mutations, and the separation-of-duties scan.
- **Discovery** (`discovery.dfy`, `staleness.dfy`). Observations become agents, links or findings while other writers
  create agents too; agents missing from sweeps go stale.
- **Behaviour signals** (`signals.dfy`). Distances between tool mixes and the banded verdicts built on them.
- **Dependency edges** (`dependencies.dfy`, `dependency_orders.dfy`). Edges derived from evidence, rebuilt idempotently,
  and what the order of the tools decides.

Components that change state are classes whose methods are proved equal to functions of the old state; protocols are
step relations (`Enabled`, `Next`, `Runs`, `After`), and the results are lemmas over every run. Money, shares and ratios
are exact `real` numbers. Times are integers in microseconds.

`dafny verify dfyconfig.toml` checks everything.

## Where the code is weaker than it reads

Each point names the lemma that says exactly when the code does what is expected of it, and the one that shows a
failing input where there is one.

- A settlement selects RESERVED rows and later writes them by primary key. Holds stay within the limit whatever happens
  (`ReservationRuns.HoldsStayWithinLimit`), but a reconcile that commits after its row was released brings the row back,
  and the budget can be committed twice over: for every limit, hold and spend there is such a run
  (`LateReconcileBreaksTheLimit`). A commit keeps the committed bound iff what the selected rows will add fits beside
  what is charged (`CommitKeepsLimitIff`), and a run keeps it throughout iff each of its commits and inserts fits
  (`LimitsHoldIff`).
- Asking again for a hold that exists returns it iff a second hold of that size would fit, and is refused otherwise
  (`Reservations.RepeatedReserve`). After a settlement with spend no retry is charged (`RetryAfterSpendIsNotCharged`);
  after a release it is held anew iff it fits (`RetryAfterReleaseClaimsAfresh`).
- An accepted request can be accepted again iff it was dated ahead of the server clock and its grant outlives the
  window (`Replay.ReplayableIffDatedAhead`). With clocks out of order a request dated on time passes again iff another
  call of its key reaped with a clock more than a window ahead (`OnTimeReplayIff`, `ConsumedAgainIff`;
  `StaleClockAdmitsReplay` is such a run). A denied call consumes its nonce iff it passes every check and its subject is
  missing (`LedgerChangesIff`).
- A request shares its signing string with no other iff none of its fields contains a newline
  (`Signing.SignatureIsOwnIff`); a newline in any field yields a second request that is signed alike
  (`NewlinesCollide`).
- Issuing checks the mode before it inserts, and a mode change selects the grants it revokes before it commits. In an
  interleaved run every live governed grant has an enforcing agent throughout iff each insert and each change is timely
  (`GrantRuns.TruthfulRunIff`); `GrantOutlivesItsMode` is a run that fails. A control-state change elsewhere keeps the
  property iff `Grants.ControlChangeStaysTruthfulIff` says so.
- Wildcard expansion and matching disagree iff the pattern is itself a known code with a dotted resource
  (`Engine.ExpandExactIff`).
- The separation-of-duties scan and the engine read the same tables differently. The scan counts a code that the engine
  refuses iff some row denies it or nothing that bears it allows it (`SoD.HeldButRefusedIff`): a denied code
  (`DeniedButHeld`), or one that only a DELETED inherited role carries (`DeletedButHeld`). The engine allows a code that
  the scan does not count iff it is borne, not denied, and no counting row has exactly this code
  (`AllowedButUnseenIff`): under a wildcard (`WildcardUnseen`), through an ARCHIVED role (`ArchivedUnseen`) or by the
  built-in role (`LegacyUnseen`).
- A revoked grant is never live again (`GrantRuns.RevokedForGood`), but the time of its revocation is kept iff no call
  that selected it while it was live stamps it afterwards with another time (`StampKeptIff`; `StampOverwritten` is such
  a run).
- A create can fail without any agent bearing the reference, when its slug was taken meanwhile. The confident sighting
  is then flagged and its replay creates the agent (`Reconciliation.RefusedSightingIsCreatedOnReplay`). A replay creates
  nothing iff every confident reference had its agent or was brought by the first pass (`ReplayCreatesNothingIff`).
- Losing the create race links the winner without looking at its origin: a native agent is linked iff it appeared
  between lookup and create (`Reconciliation.NativeLinkedIff`).
- A weak sighting closes a staleness finding but does not reset the miss counter: the code counts misses in a row, for
  every threshold, iff none fell after the last confident sighting (`Staleness.ConsecutiveRuleIff`).
- The DEGRADED band of the tool-mix signal is inhabited iff the anomalous ratio is positive and the degraded one is
  negative, or larger and at least one, which the default ratios are not (`Signals.DegradedBandIff`); swapping observed and baseline
  keeps a drift verdict iff not exactly one of them is zero (`DriftSwapIff`).
- An observed dependency is recorded as such unless its insert loses the race to a declaration
  (`DependencyEdges.ObservationKeptIff`), and is marked as also declared iff a declaration came after it
  (`EvidenceMeansHistory`).

## Model

| member | source | states |
|---|---|---|
| Reservations.ReservationLedger.Reserve | backend/app/finops/reservations.py:203-262 | an uninterrupted reserve: refusals, the existing hold, or one new RESERVED row |
| Reservations.ReservationLedger.Settle | backend/app/finops/reservations.py:276-360 | reconcile, release and sweep close exactly the selected RESERVED rows and count them |
| Reservations.CommittedRowByRow | backend/app/finops/reservations.py:168-193 | what each row adds to a balance: open holds, actuals, nothing once released or in another bucket |
| Reservations.OverThresholdIff | backend/app/finops/reservations.py:133-141 | the alarm is on iff the committed share of the limit reaches the threshold |
| Reservations.GrantedIff | backend/app/finops/reservations.py:203-262 | when a hold is granted, in fields of budget, rows and call, and the row it leaves |
| Reservations.RefusedWithinThePeriodIff | backend/app/finops/reservations.py:94-106 | with the limit held, a second claim is refused iff it falls into the same day, month or execution |
| Reservations.SettledRowByRow | backend/app/finops/reservations.py:276-360 | what each of the three settlements does to every row |
| Reservations.CommittedSplit | backend/app/finops/reservations.py:109-132 | held plus spent is the charge capped by the holds plus the overrun, for every ledger |
| Reservations.SettleIdempotent | backend/app/finops/reservations.py:276-323 | a second reconcile or release of the execution changes nothing and reports zero rows |
| Reservations.RepeatedReserve | backend/app/finops/reservations.py:225-262 | a repeated reserve adds no row; it returns the hold iff a second one would still fit |
| Reservations.RetryAfterSpendIsNotCharged | backend/app/finops/reservations.py:238-300 | after a settlement with spend, neither a new hold nor a second settlement changes the ledger |
| Reservations.RetryAfterReleaseClaimsAfresh | backend/app/finops/reservations.py:225-262 | after a release the execution gets a hold again iff it fits |
| ReservationRuns.ChargeGrowsIff | backend/app/finops/reservations.py:276-300 | which late commits raise what a row charges, in terms of its status, hold and recorded spend |
| ReservationRuns.GrowthIsExact | backend/app/finops/reservations.py:276-300 | what a commit adds to a bucket, computed from the selected rows before it |
| ReservationRuns.CommitKeepsLimitIff | backend/app/finops/reservations.py:276-300 | a commit keeps every budget within limit plus overrun iff its growth fits beside what is charged |
| ReservationRuns.StepKeepsInv | backend/app/finops/reservations.py:203-360 | any step of any call keeps the invariant on holds; it keeps the one on charges unless it raises a closed row's charge |
| ReservationRuns.HoldsStayWithinLimit | backend/app/finops/reservations.py:30-39 | in every interleaving, late commits included, the held sum of each bucket is at most the limit |
| ReservationRuns.CommitmentsStayWithinLimit | backend/app/finops/reservations.py:41-51 | commitments stay within limit plus overrun in every run without a late charge-raising reconcile |
| ReservationRuns.LimitsHoldIff | backend/app/finops/reservations.py:203-360 | for all runs: commitments stay within limit plus overrun throughout iff each commit and insert fits when it happens |
| ReservationRuns.OneLiveRow | backend/app/finops/reservations.py:238-274 | at most one unreleased row per budget and execution in every run, late commits included |
| ReservationRuns.StepAdvancesIff | backend/app/finops/reservations.py:276-360 | a step respects RESERVED to RECONCILED or RELEASED exactly under the stated condition on its commit |
| ReservationRuns.RowsOnlyAdvance | backend/app/finops/reservations.py:276-360 | with fresh commits rows are never removed and a closed row never changes |
| ReservationRuns.ClaimIsARun | backend/app/finops/reservations.py:203-262 | four uninterrupted steps insert the hold iff it fits and is new |
| ReservationRuns.ReserveIsARun | backend/app/finops/reservations.py:203-262 | the ledger's reserve is the uninterrupted run of its four steps |
| ReservationRuns.SettleIsARun | backend/app/finops/reservations.py:276-360 | the ledger's settlements are the uninterrupted runs of select and commit |
| ReservationRuns.LateReconcileBreaksTheLimit | backend/app/finops/reservations.py:276-300 | for every limit, hold and spend, a run in which a late reconcile commits the budget twice |
| BudgetResolution.ResolveExact | backend/app/finops/budgets.py:52-92 | resolution yields exactly the enabled matching budgets, each once, most specific first |
| BudgetResolution.ResolvedIff | backend/app/finops/budgets.py:52-92 | which budgets apply, scope type by scope type, in fields of budget and execution |
| BudgetResolution.ResolvedInOrder | backend/app/finops/budgets.py:33-35 | agent, model, environment, project, organization; within a type by age and id |
| BudgetResolution.OrderIsUnique | backend/app/finops/budgets.py:75-92 | the order depends on the budgets alone, not on how the table was scanned |
| BudgetGuards.BudgetGuard.Prepare | backend/app/finops/guard.py:77-140 | takes every hold that fits and returns the tightest constraint, the first on a tie, none iff none reserves |
| BudgetGuards.BudgetGuard.Hold | backend/app/finops/guard.py:121-135 | one reserving budget: the hold it takes and the constraint it reports |
| BudgetGuards.BudgetGuard.SettleExecution | backend/app/finops/guard.py:145-174 | positive spend reconciles the execution's holds, anything else releases them |
| BudgetGuards.HeadroomIsFinal | backend/app/finops/guard.py:121-138 | what was reported for a budget that did not refuse is where it stands after any number of later holds |
| BudgetGuards.BindingIsFinal | backend/app/finops/guard.py:111-140 | the returned constraint is where its budget stands in the ledger prepare leaves, cut to at most zero if it refused |
| BudgetGuards.StandingMeans | backend/app/finops/reservations.py:125-141 | the figures of a standing: limit less committed, and the alarm |
| BudgetGuards.SpendIsRecorded | backend/app/finops/guard.py:167-174 | the execution's own figure counts alone, otherwise the transcript is added up |
| BudgetGuards.ExecutionSettled | backend/app/finops/guard.py:145-165 | what settling does to each row, by the sign of the spend |
| BudgetGuards.RefusalShows | backend/app/finops/guard.py:77-140 | any refusal makes the reported remaining at most zero; below zero only by a refusal |
| BudgetGuards.SkipSignalling | backend/app/finops/guard.py:114-119 | a signalling budget takes no hold and never binds |
| BudgetGuards.SettlingConserves | backend/app/finops/guard.py:145-174 | once every holding execution is settled, nothing is held and spent equals recorded spend |
| Signing.FieldsRecoveredIff | backend/app/bridge/identity.py:81-89 | splitting a signing string on newlines gives back its six fields iff each is one line |
| Signing.UpperLetters | backend/app/bridge/identity.py:81-89 | upper-casing maps a to z onto A to Z and changes nothing else |
| Signing.LineRequestsAreUnforgeable | backend/app/bridge/identity.py:81-99 | whatever request is signed like a newline-free one agrees with it field by field |
| Signing.SignatureIsOwnIff | backend/app/bridge/identity.py:81-99 | all requests signed alike agree field by field iff no field contains a newline |
| Signing.NewlinesCollide | backend/app/bridge/identity.py:81-89 | a newline in any field yields a different request with the same string |
| Grants.ValidateScope | backend/app/bridge/identity.py:207-234 | the normalized scope, or the refusal of the first unacceptable entry |
| Grants.EntryAcceptedIff | backend/app/bridge/identity.py:207-234 | which entries are accepted, and which refusal the others get |
| Grants.ScopeReach | backend/app/bridge/identity.py:118-129 | a validated scope covers what was asked for and nothing else; governed calls name a target |
| Grants.GrantService.IssueGrant | backend/app/bridge/identity.py:141-205 | every refusal and the one new grant |
| Grants.GrantService.RevokeGrant | backend/app/bridge/identity.py:251-275 | first revocation is stamped, later ones return the same grant |
| Grants.GrantService.SetAgentMode | backend/app/bridge/service.py:65-125 | leaving the gateway mode revokes all and only the agent's live grants |
| Grants.GovernedIff | backend/app/bridge/identity.py:161-164 | a scope is governed iff it names http_tool.invoke |
| Grants.EnforcesIff | backend/app/bridge/modes.py:137-156 | enforcement and effective mode, in the two stored fields |
| Grants.IssueMeans | backend/app/bridge/identity.py:161-192 | when a grant is issued and which refusal otherwise, in fields of the tables |
| Grants.ModeChangeMeans | backend/app/bridge/service.py:97-114 | exactly the agent's live grants are revoked, exactly when it leaves the gateway mode |
| Grants.ModeIsStored | backend/app/bridge/service.py:82-95 | whose mode changes, to what |
| Grants.ModeRefusals | backend/app/bridge/service.py:67-88 | which mode changes are refused, and why |
| Grants.RunsStayTruthful | backend/app/bridge/service.py:65-125 | in every run each live governed grant belongs to an agent whose mode reaches boundary calls |
| Grants.RevocationIsPermanent | backend/app/bridge/identity.py:251-275 | in every run of whole calls a revoked grant, its stamp included, stays as it is and no grant changes hands |
| Grants.ControlChangeStaysTruthfulIff | backend/app/bridge/modes.py:137-156 | exactly when a control-state change keeps the grant invariant |
| GrantRuns.StepTruthfulIff | backend/app/bridge/identity.py:161-203 | an insert or mode change keeps the grant invariant iff it is timely, judged on the tables before it |
| GrantRuns.TruthfulRunIff | backend/app/bridge/service.py:65-125 | in every interleaving of issues, mode changes and revocations the invariant holds throughout iff each step is timely |
| GrantRuns.GrantOutlivesItsMode | backend/app/bridge/identity.py:161-203 | for every agent in gateway mode, a run that leaves it a live governed grant while it enforces nothing |
| GrantRuns.RevokedForGood | backend/app/bridge/identity.py:251-275 | in every interleaving a revoked grant is never live again and changes in nothing but its stamp |
| GrantRuns.StampKeptIff | backend/app/bridge/service.py:97-114 | a step keeps the time of a revocation iff it does not stamp the grant with another one |
| GrantRuns.StampOverwritten | backend/app/bridge/service.py:97-114 | for every live grant of an agent in gateway mode, a run in which a mode change overwrites its revocation's time |
| GrantRuns.IssueIsAtomic | backend/app/bridge/identity.py:141-205 | uninterrupted, check and insert are the service's issue |
| GrantRuns.ChangeIsAtomic | backend/app/bridge/service.py:65-125 | uninterrupted, select and commit are the service's mode change |
| GrantRuns.RevokeIsAtomic | backend/app/bridge/identity.py:251-275 | uninterrupted, read and commit are the service's revocation |
| Replay.RequestVerifier.Verify | backend/app/bridge/identity.py:280-330 | the verdict, first failing check first, and the nonce ledger afterwards |
| Replay.RequestVerifier.ConsumeNonce | backend/app/bridge/identity.py:332-359 | consumed iff absent or expired; a replay undoes the reaping |
| Replay.AcceptedIff | backend/app/bridge/identity.py:280-330 | a request is accepted iff all eight conditions hold, stated in its fields |
| Replay.DeniedBecause | backend/app/bridge/identity.py:280-330 | which denial a request gets, first failing check first |
| Replay.LedgerAfter | backend/app/bridge/identity.py:341-352 | every nonce afterwards: the new one for five minutes, the key's expired ones gone, others untouched |
| Replay.LedgerChangesIff | backend/app/bridge/identity.py:280-359 | a call changes the ledger iff it passes the checks with an absent or expired nonce; a denied one iff also its agent is gone |
| Replay.ConsumedAgainIff | backend/app/bridge/identity.py:332-359 | whatever the clocks, exactly when a nonce is consumed again |
| Replay.OnTimeReplayIff | backend/app/bridge/identity.py:280-359 | a request not dated ahead passes again iff another call of its key reaped with a clock past the window |
| Replay.NonceSpacing | backend/app/bridge/identity.py:332-359 | with clocks in order, two consumptions of one nonce are more than a window apart |
| Signing.HeaderRequestsAgree | backend/app/bridge/identity.py:81-99 | requests whose verb and headers are single lines are signed alike only if they agree, whatever their paths contain |
| Replay.AcceptedAlike | backend/app/bridge/identity.py:280-330 | accepted requests with one signature share nonce and date, however they are presented |
| Replay.AcceptedOnce | backend/app/bridge/identity.py:280-359 | in every run a signature accepted twice was dated ahead of the clock that first accepted it |
| Replay.AcceptedAtMostTwice | backend/app/bridge/identity.py:280-359 | in no run is a signature accepted three times, whatever the case of the verb |
| Replay.ReplayPassesIff | backend/app/bridge/identity.py:280-359 | the exact interval in which a second presentation passes |
| Replay.ReplayableIffDatedAhead | backend/app/bridge/identity.py:280-359 | replayable at some time iff dated ahead and the grant outlives the window |
| Replay.StaleClockAdmitsReplay | backend/app/bridge/identity.py:332-359 | with clocks out of order a request not dated ahead is accepted twice |
| Hierarchy.ReachableChildren | backend/app/authorization/services.py:415-425 | the breadth-first search returns exactly the roles reachable by one or more edges, on any graph |
| Hierarchy.ChildLists | backend/app/authorization/engine.py:142-149 | the adjacency lists hold each role's children in row order |
| Hierarchy.Descendants | backend/app/authorization/engine.py:151-162 | the depth-first search returns exactly the same set, on any graph |
| Graphs.EdgeOnCycleIff | backend/app/authorization/services.py:427-432 | on any graph the cycle test says whether the new edge lies on a cycle |
| Graphs.CycleIff | backend/app/authorization/services.py:427-432 | on an acyclic graph the cycle test says whether adding the edge closes a cycle |
| Hierarchy.RoleHierarchy.WouldCreateCycle | backend/app/authorization/services.py:427-432 | true iff the parent is the child or is reachable from it |
| Hierarchy.RoleHierarchy.AddEdge | backend/app/authorization/services.py:434-458 | refuses iff the parent is the child or below it, otherwise returns the existing edge or appends the new one; acyclic stays acyclic |
| Hierarchy.RoleHierarchy.RemoveEdge | backend/app/authorization/services.py:460-471 | exactly the edges with that id go, all others stay with their multiplicity; or there is none |
| Hierarchy.DroppedRoleLosesItsEdges | backend/app/authorization/services.py:324-333 | deleting a role removes exactly the edges at it |
| Hierarchy.RunsStayAcyclic | backend/app/authorization/services.py:427-471 | every run of serialized edits from an acyclic hierarchy stays acyclic |
| Engine.ExpandExactIff | backend/app/authorization/engine.py:107-131 | expand equals the known codes that match, except in one exactly stated case |
| Engine.MatchesIff | backend/app/authorization/engine.py:109-121 | what a pattern covers: everything, itself, or a plain resource and what follows its dot |
| Engine.EvaluateIff | backend/app/authorization/engine.py:212-240 | allowed iff a bearing grant allows and none denies; which grant is named as the reason |
| Engine.OrderIrrelevant | backend/app/authorization/engine.py:310-341 | the decision does not depend on order or multiplicity of grants |
| Engine.GlobalDecides | backend/app/authorization/engine.py:177-178 | a global grant decides everywhere |
| Engine.OrganizationDecidesIff | backend/app/authorization/engine.py:180-182 | an organization grant decides iff it names none or the one the request is about |
| Engine.OtherOrganizationIsIdle | backend/app/authorization/engine.py:180-182 | and changes no decision, nor its reason, where another one is meant |
| Engine.NarrowDecidesIff | backend/app/authorization/engine.py:184-205 | a narrower grant decides iff the request names its own target, and is idle otherwise |
| Engine.ResolvedComesFromRows | backend/app/authorization/engine.py:248-286 | each resolved grant carries the code and effect of one row within the scope of one unlapsed assignment, or is built in |
| Engine.RowsAreResolved | backend/app/authorization/engine.py:248-286 | and each such row is resolved |
| Engine.GrantsOf | backend/app/authorization/engine.py:248-286 | one assignment yields exactly its roles' and inherited roles' permissions |
| Engine.ResolveGrants | backend/app/authorization/engine.py:248-286 | resolution yields exactly the legacy grants and those of unlapsed assignments |
| Engine.LapsesOnly | backend/app/authorization/engine.py:248-286 | time alone only removes grants, and only of assignments that lapsed meanwhile |
| Engine.RoleGrants.DesiredEffects | backend/app/authorization/services.py:356-360 | the codes of both lists, DENY iff in the deny list |
| Engine.RoleGrants.SetPermissions | backend/app/authorization/services.py:341-402 | the rows are the codes of both lists, DENY iff in the deny list, whatever was stored; surviving rows keep their identity |
| Cache.StepKeepsInv | backend/app/authorization/cache.py:38-124 | every reader step, mutation and tick keeps the cache invariant; versions never fall |
| Cache.CurrentEntriesAreFresh | backend/app/authorization/cache.py:84-124 | in every interleaving a usable entry equals fresh resolution but for recent lapses |
| Cache.CollectedIsFresh | backend/app/authorization/cache.py:84-124 | what a reader collected is exactly fresh if its version is still current |
| Cache.MutationRetiresEverything | backend/app/authorization/cache.py:65-82 | after a mutation with its bump no existing entry can be hit |
| Cache.PermissionCache.CurrentVersion | backend/app/authorization/cache.py:38-63 | an absent version row behaves as 1 and is created |
| Cache.PermissionCache.BumpVersion | backend/app/authorization/cache.py:65-82 | the version strictly grows, from an absent row to 2 |
| Cache.PermissionCache.GetGrants | backend/app/authorization/cache.py:84-124 | hit iff current and unexpired; a miss resolves and stores; the answer is fresh but for lapses |
| SoD.ResolveEffectivePermissions | backend/app/authorization/services.py:473-480 | a role's own and inherited codes |
| SoD.UserPermissionCodes | backend/app/governance/services.py:69-98 | with or without the shared memo, exactly the union over the user's live assignments |
| SoD.EffectsDoNotMatter | backend/app/governance/services.py:69-98 | rewriting every effect changes nobody's scanned codes |
| SoD.EngineAllowsIff | backend/app/authorization/engine.py:248-341 | the engine's decision read off the tables: borne by a row or the built-in role, and denied by no row |
| SoD.HeldIff | backend/app/governance/services.py:69-98 | a code is counted iff a counting assignment reaches a row with exactly this code |
| SoD.HeldButRefusedIff | backend/app/governance/services.py:69-98 | exactly when the scan counts a code that the engine refuses |
| SoD.AllowedButUnseenIff | backend/app/governance/services.py:69-98 | exactly when the engine allows a code that the scan does not count |
| SoD.DeniedButHeld | backend/app/governance/services.py:69-98 | tables on which a denied code is counted as held |
| SoD.DeletedButHeld | backend/app/authorization/services.py:473-480 | tables on which a code of a DELETED inherited role is counted, with nothing denied |
| SoD.WildcardUnseen | backend/app/governance/services.py:69-98 | tables on which a wildcard grants codes that are not counted |
| SoD.ArchivedUnseen | backend/app/governance/services.py:79-87 | tables on which an ARCHIVED role grants a code that is not counted |
| SoD.LegacyUnseen | backend/app/authorization/engine.py:248-258 | tables on which the built-in role grants a code that is not counted |
| SoD.SoDAnalysis.EvaluateUser | backend/app/governance/services.py:177-209 | one finding per violated rule without an open one |
| SoD.SoDAnalysis.Analyze | backend/app/governance/services.py:211-227 | a pair is open afterwards iff it was, or the user is active and holds a code on each side of an active rule with that id |
| SoD.ScanOpensExactly | backend/app/governance/services.py:167-227 | afterwards the open pairs are those open before and the violating ones |
| SoD.PairOpenIff | backend/app/governance/services.py:177-209 | the same for any users and rules scanned |
| SoD.OneSideIsNoFinding | backend/app/governance/services.py:188-191 | a user holding nothing from one side of every rule gains no finding |
| SoD.FindingsSayWhatMatched | backend/app/governance/services.py:188-200 | a finding's kind follows its rule and it lists exactly the codes that matched |
| SoD.CodesOnlyLapse | backend/app/governance/services.py:69-98 | over unchanged tables nobody holds more codes later |
| SoD.SecondScanCreatesNothing | backend/app/governance/services.py:167-227 | a second scan over unchanged tables, at once or at any later time, creates nothing |
| Reconciliation.BatchKeepsAuthority | backend/app/discovery/reconciliation.py:84-180 | one agent per reference, lost races included; ownership, control and lifecycle never change |
| Reconciliation.NewcomersAreUnclaimed | backend/app/discovery/reconciliation.py:103-180 | agents a batch adds are unowned DISCOVERED drafts, unless a rival writer made them |
| Reconciliation.SightingRecordedIff | backend/app/discovery/reconciliation.py:103-180 | a sighting is recorded iff it is confident, not found native, and its create is not refused without a winner; others change no agent |
| Reconciliation.CreatedAgent | backend/app/discovery/reconciliation.py:134-145 | the agent that a create adds, field by field |
| Reconciliation.BatchKeepsObserved | backend/app/discovery/reconciliation.py:134-180 | no batch leaves an agent linked to a source without an observation on record |
| Reconciliation.TallyAddsUp | backend/app/discovery/reconciliation.py:84-95 | created plus linked plus flagged is the batch size |
| Reconciliation.HeldAfterIff | backend/app/discovery/reconciliation.py:103-180 | a reference has its agent after a batch iff it had one, or some sighting or rival brought it |
| Reconciliation.CreatesNothingIff | backend/app/discovery/reconciliation.py:84-180 | for every batch: nothing is created iff each create finds its reference in the table or brought by another writer |
| Reconciliation.ReplayCreatesNothingIff | backend/app/discovery/reconciliation.py:84-180 | a replay in any order creates nothing iff every confident reference had an agent or was brought by the first pass |
| Reconciliation.UnrefusedReplayCreatesNothing | backend/app/discovery/reconciliation.py:84-180 | if no create was refused, replaying the observations creates nothing |
| Reconciliation.RefusedSightingIsCreatedOnReplay | backend/app/discovery/reconciliation.py:146-158 | a confident sighting whose create is refused is flagged, and its replay creates the agent |
| Reconciliation.NativeLinkedIff | backend/app/discovery/reconciliation.py:103-180 | exactly when a native agent is linked by the lost-race fallback |
| Staleness.MissesSinceConfident | backend/app/discovery/reconciliation.py:200-271 | how the code's counter relates to consecutive misses |
| Staleness.ConsecutiveRuleIff | backend/app/discovery/reconciliation.py:200-271 | exactly when the code decides "missing from k sweeps in a row" |
| Staleness.EventMeans | backend/app/discovery/reconciliation.py:200-229 | what a sweep is for an agent: failed, missed, seen weakly or seen at 0.75 and above |
| Staleness.OpensAtKthMiss | backend/app/discovery/reconciliation.py:231-245 | without weak sightings or hand closing, a miss makes a history stale iff it is the k-th in a row |
| Staleness.FindingOpensAtKthMiss | backend/app/discovery/reconciliation.py:200-271 | in every series of sweeps, a finding opens iff the sweep is the k-th in a row to miss the agent |
| Staleness.SweepTracks | backend/app/discovery/service.py:221-286 | one sweep keeps tables and history in agreement, failed and partial sweeps included |
| Staleness.ClosingTracks | backend/app/discovery/reconciliation.py:237-271 | closing a finding by hand keeps them in agreement |
| Staleness.RecordingTracks | backend/app/discovery/service.py:221-286 | a sweep that records an agent starts its history, whatever was known before |
| Staleness.NewcomersAreStamped | backend/app/discovery/reconciliation.py:134-180 | every agent that appears during a sweep is recorded by it, unless it is another writer's untouched row |
| Staleness.OpenIffStale | backend/app/discovery/service.py:221-286 | from any tables at rest, over any number of sweeps, a recorded agent's finding is open iff its history since says stale |
| Staleness.LinkedAreObserved | backend/app/discovery/reconciliation.py:134-180 | in every series of sweeps each linked agent has an observation on record |
| Staleness.Discovery.ReconcileOne | backend/app/discovery/reconciliation.py:103-180 | create, link or flag, create failures with and without a winner included, with the finding a flag leaves |
| Staleness.Discovery.ReconcileBatch | backend/app/discovery/reconciliation.py:84-95 | the batch folds one observation after another |
| Staleness.Discovery.CheckStaleness | backend/app/discovery/reconciliation.py:200-271 | at most one open finding per agent; which agents have one afterwards |
| Staleness.Discovery.RunSource | backend/app/discovery/service.py:151-286 | a whole sweep, its run status included, is one step of the history |
| Signals.ToolMixDistance | backend/app/behavior/signals.py:411-426 | the loops compute half the summed difference of shares |
| Signals.DistanceInRange | backend/app/behavior/signals.py:411-426 | the distance lies in [0, 1] |
| Signals.DistanceSymmetric | backend/app/behavior/signals.py:411-426 | symmetric |
| Signals.DistanceTriangle | backend/app/behavior/signals.py:411-426 | triangle inequality |
| Signals.DistanceZeroIff | backend/app/behavior/signals.py:411-426 | zero iff the shares are equal |
| Signals.DistanceOneIff | backend/app/behavior/signals.py:411-426 | one iff no tool is called in both windows |
| Signals.RateMonotone | backend/app/behavior/signals.py:189-230 | severity never falls as the observed rate rises |
| Signals.RateReachedIff | backend/app/behavior/signals.py:189-230 | when each rate verdict is reached |
| Signals.DriftMonotone | backend/app/behavior/signals.py:233-274 | severity never falls as the larger of the two ratios rises |
| Signals.DriftReachedIff | backend/app/behavior/signals.py:233-274 | a threshold is reached iff one value is that many times the other |
| Signals.DriftVerdictIff | backend/app/behavior/signals.py:233-274 | when each drift verdict is reached, without a baseline and at zero included |
| Signals.DriftSwapIff | backend/app/behavior/signals.py:233-274 | swapping keeps the verdict iff not exactly one value is zero |
| Signals.ToolPatternShift | backend/app/behavior/signals.py:393-452 | normal without two mixes, otherwise the distance against the reused ratios |
| Signals.MixMonotone | backend/app/behavior/signals.py:429-445 | severity never falls as the distance rises |
| Signals.MixReachedIff | backend/app/behavior/signals.py:429-445 | when each distance verdict is reached, for ratios of any sign |
| Signals.DegradedBandIff | backend/app/behavior/signals.py:429-445 | for all configured ratios, exactly when any distance is judged DEGRADED |
| Signals.ToolFailureSpike | backend/app/behavior/signals.py:354-390 | the first tool of the worst severity among those called often enough |
| Signals.ToolReachedIff | backend/app/behavior/signals.py:362-381 | when one tool gets each rating, in its call and failure counts |
| Signals.WorstSpeaksForAll | backend/app/behavior/signals.py:382-390 | the finding is anomalous iff some tool is, degraded iff some is and none is anomalous |
| DependencyEdges.RunKeepsTable | backend/app/graph/dependencies.py:64-128 | in every run one live edge per key, every edge fits its type, rows only advance |
| DependencyEdges.ShapesAre | backend/app/graph/dependencies.py:44-54 | the edge types, read by their endpoints |
| DependencyEdges.WriteMeans | backend/app/graph/dependencies.py:76-128 | what a write leaves in every row: merged details, kept provenance, or a new live edge |
| DependencyEdges.EvidenceMeansHistory | backend/app/graph/dependencies.py:92-101 | in every run: live, OBSERVED and also-declared each iff the history since the last revocation says so |
| DependencyEdges.ObservationKeptIff | backend/app/graph/dependencies.py:103-128 | exactly when an observation survives a lost create race |
| DependencyBuild.BuildWritesRequired | backend/app/graph/dependencies.py:153-318 | a build writes exactly the keys the evidence requires |
| DependencyBuild.RequestsSay | backend/app/graph/dependencies.py:198-231 | what calls and assignments link and record, field by field |
| DependencyBuild.ToolRequestsSay | backend/app/graph/dependencies.py:235-283 | what credentials and servers link and record |
| DependencyBuild.ProviderRequestSays | backend/app/graph/dependencies.py:296-318 | what the provider links and records |
| DependencyBuild.WriteAllCreatesMissing | backend/app/graph/dependencies.py:329-345 | live keys afterwards, and the created count is the number of keys that were missing |
| DependencyBuild.RebuildCreatesNothing | backend/app/graph/dependencies.py:153-324 | a second build over the same evidence, in any tool order, creates nothing and keeps the live keys |
| DependencyBuild.WritingIsIdempotent | backend/app/graph/dependencies.py:92-101 | repeating a list whose observations come first changes no row |
| DependencyBuild.RebuildIsANoOp | backend/app/graph/dependencies.py:153-324 | a rebuild in the same order leaves every row, evidence included, as it was |
| DependencyOrders.WriteAllEvidence | backend/app/graph/dependencies.py:64-128 | after any list of requests, a key's evidence is its own requests merged in order |
| DependencyOrders.OrdersAgreeIff | backend/app/graph/dependencies.py:235-290 | two tool orders leave the same evidence, but for the tool named on an edge to a server; that is the same iff the same tool came up last |
| DependencyOrders.CallIsRecorded | backend/app/graph/dependencies.py:186-211 | after a build the edge to a called tool is OBSERVED with that call's figures, whatever was there and whatever is assigned |
| DependencyBuild.DeclaredFirstIsNotIdempotent | backend/app/graph/dependencies.py:92-101 | why observations must come first |
| DependencyBuild.BuildIsWellFormed | backend/app/graph/dependencies.py:44-54 | a build puts observations first and every request fits its edge type |
| DependencyBuild.BuildIsARun | backend/app/graph/dependencies.py:153-324 | a build is one of the runs of the edge table |
| DependencyBuild.DependencyGraph.UpsertEdge | backend/app/graph/dependencies.py:64-128 | merge into the live edge, insert, or return the race's winner |
| DependencyBuild.DependencyGraph.BuildForAgent | backend/app/graph/dependencies.py:153-324 | the loops perform exactly the required requests and count what was new |
| DependencyBuild.DependencyGraph.CreateDeclaredEdge | backend/app/graph/dependencies.py:350-411 | accepted iff the shape fits and both ends resolve; which error otherwise |
| DependencyBuild.DependencyGraph.RevokeEdge | backend/app/graph/dependencies.py:414-439 | closes a live dependency edge, once; which error otherwise |

## Left out

- SQL, HTTP, sessions, retries of failed transactions: tables are maps or sequences, commits are atomic steps, unique indexes are guards.
- Signing.UpperLetters: upper-casing is that of the ASCII letters, of which HTTP methods consist.
- Cryptography: an HMAC is a free constructor, a body digest is a string, a header timestamp arrives already parsed or absent; verifying does not model timing.
- Organizations: one tenant is modelled except where an organization field decides something; cross-tenant reads return nothing.
- Floating point: money, rates and distances are exact reals; rounding for display is not modelled.
- Audit events, signals to operators, message texts, dominant-cause attribution, `thresholds_for` and the remaining behaviour signals, which apply the same two rules to other metrics.
- Budget amounts are taken as non-negative and limits as fixed during a run; editing and deleting budgets is not modelled.
- BudgetGuards.BudgetGuard.Prepare: one moment serves the whole call, so a day boundary between two statements is not captured; it runs uninterrupted, interleavings being the run model's.
- The spend that signalling budgets observe, and the signals themselves.
- BudgetResolution.OrderIsUnique: the last tie-break compares numeric ids where the code compares their text.
- Grants.RunsStayTruthful: whole calls only; their interleavings are the subject of GrantRuns. Control state stays fixed.
- GrantRuns.TruthfulRunIff: agents are not deleted, and nothing but mode changes moves an agent's row version.
- Replay.AcceptedOnce: asks that the first request contain no newline, or that both have single-line verb, timestamp, nonce and digest, as HTTP guarantees; a decoded path is free.
- Reconciliation.CreatesNothingIff: at most one agent is committed by another writer per sighting, and other writers do not edit existing agents.
- Rate limiting, grant listing, label bounds and the `last_used` bookkeeping of grants.
- Concurrent version bumps, concurrent edge additions and overlapping sweeps: mutations are serialized, each with its bump, in the one organization modelled.
- Engine.ResolveGrants: the result is characterized as a set; the order and multiplicity in which grants are listed is not.
- Hierarchy.RunsStayAcyclic: deleting a role drops its edges in one step; the rest of the role lifecycle is not modelled.
- Truncation of long names when discovered agents are stored, observation persistence and checkpoints.
- Signals.ToolFailureSpike: assumes each tool in a window was called at least once, as window construction ensures.
- DependencyBuild.DependencyGraph.BuildForAgent: no other writer interferes during a build; the published provider arrives trimmed and matched to its credential.
- The authorization gateway, attribute policies, graph traversal queries, gateway dispatch, posture, compliance reports, dashboards, command center and the whole frontend.

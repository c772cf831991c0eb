# Verified model of the ingress-nginx to Gateway API bridge

The bridge reads Kubernetes Ingresses and keeps a Gateway, overflow ListenerSets, HTTPRoutes and their
helpers in step with them. This project models its hardest parts in Dafny and proves what they promise.

**The planner** (`internal/translator/gateway.go`). From all selected Ingresses, the parsed certificates and
the previous placement it decides which Secret owns each TLS hostname, which hostnames share a wildcard
listener, which certificate class wins each wildcard, and on which parent (the Gateway with 63 HTTPS slots,
or ListenerSets with 64 each) every listener sits. `Collect`, `Election`, `Resolve`, `Projecting`, `Placing`
and `Planner` hold, side by side, a specification on sets and maps that mentions no iteration order, and the
loops of the source as methods proved equal to it. `DeclarationLaws`, `ElectionLaws`, `ListenerLaws`,
`PlacingLaws`, `HeirLaws`, `PlannerLaws`, `PlanLaws`, `ConflictLaws`, `Replan`, `Rebuild` and `ReplanExample` prove
what the specification means for the Ingresses, certificates and placements it starts from; `SmallDemands` serves the
examples.

**The reconciler** (`internal/controller`). `Observing` and `Runs` model the bootstrap from the cluster and one
reconciliation: plan, commit to memory, then grants, Gateway, sets, pruning, where any call to the cluster,
a read, a list, a write or a deletion, may be the last, and finally the push of the affected Ingresses. `RunLaws`
proves safety over every run of such steps and restarts, and crash safety of placements; `Settling` convergence of
repeated reconciliations and who is pushed; `CompletionLaws` what a complete reconciliation leaves and what none
touches; `LostPush` a run in which a push is lost.

**Around them.** `CertificateCache` is the per-Secret cache with its event-driven invalidation, `Finalizer` the
life of one Ingress and its generated objects, `Routes` host collection, TLS matching and the pushes after a
replan, `Canary` canary assignment and consolidation (`Claims` says which rules clash), `AuthHeaders` the
case-insensitive header merge, and `Naming` generated names.

Objects the source updates in place are classes (`Runs.Reconciler`, `CertificateCache.CertificateStore`,
`Finalizer.Source`, `Routes.AffectedIngresses`); loops are methods with invariants; the rest is functions.
Maps are iterated by picking an arbitrary remaining key, so every result proved of a method holds for every
iteration order.

`dafny verify dfyconfig.toml` checks the project.

## Where the code falls short of its documentation or comments

- `docs/architecture.md` says that the Ingresses on a listener that moved are re-pushed as soon as the new plan is
  known. They are pushed after the last write only, while the plan is committed before the first, so a reconciliation
  pushes them exactly when it completes (`Settling.MovedIsPushedExactly`), and a retry compares with what was committed
  (`Settling.RetryReportsMoves`): once a stable plan was committed, reconciling the same Ingresses and certificates
  again pushes nobody (`Settling.RetryPushesNobody`). `LostPush.PushIsLost` is a run in which the listener moves, the
  first call fails, the retry completes and nobody is pushed.
- `docs/architecture.md` calls conflicting Secrets for a hostname fatal for both source Ingresses. The Error goes
  to the Ingress that made the conflicting declaration and to the last one that had agreed with the owner by
  then. `ConflictLaws.PlanFlagsExactly` says exactly who carries it in a plan; `ConflictLaws.LatePartyUnflagged` has
  three Ingresses, the third of which names the owner's Secret, is served and carries none.
- The comment on `DNSLabel` (`internal/naming/naming.go:13`) promises a DNS label. The name is one exactly when none of
  the bytes kept is of a letter outside ASCII (`Naming.DNSLabel`), so always for ASCII text
  (`Naming.AsciiGetsLabel`) and never for a text that begins with such a letter (`Naming.ForeignGetsNoLabel`).
- Rebuilding a plan from its own placements can give another plan once something was left unplaced, because a
  host served by nothing of its own counts as served by the wildcard. `Rebuild.RebuildExactly` says that the
  rebuilt plan is equal in every field exactly when every elected class outlasts every other, and
  `Replan.ReelectedExactly` says, per wildcard, when that is. `ReplanExample.ReplanFlips` is a family of demands on a
  full Gateway that flip, `ReplanExample.ExampleUnstable` an Ingress with three TLS entries whose rebuilt plan differs.
  When every declared host is served the rebuild is the same plan (`Replan.RebuildIsFixpoint`).
- The comment on pruning the certificate cache (`internal/controller/certificates.go:163-167`) says it keeps a Secret
  that changes while unreferenced from being served stale. It does whenever a Secret is not cached at the moment it
  becomes referenced again (`CertificateCache.ForgottenIsCurrent`). While unreferenced it stays cached exactly as long as
  no plan ends and no sync starts (`CertificateCache.CachedUntilDropped`), so a plan ending in between is enough
  (`CertificateCache.PlanBetweenIsCurrent`). Otherwise an entry can be stale, exactly when the last change ignored
  since it was read left another certificate than the cached one (`CertificateCache.StaleExactly`), and
  `CertificateCache.StaleReuse` is a run in which that happens.

## Model

| member | source | states |
|---|---|---|
| Collect.EffectiveTLSHosts | internal/translator/gateway.go:699-724 | the hosts of a TLS entry are its own non-empty names, or, when it lists none, the Ingress's named rules, each once |
| DeclarationLaws.HostsExactly | internal/translator/gateway.go:170-226 | the TLS hosts of a plan are exactly those a live Ingress declares in an entry with a Secret name: listed there, or named by its rules when the entry lists none |
| DeclarationLaws.EarliestOwns | internal/translator/gateway.go:158-224 | a host gets the Secret of its earliest declaration, by namespace and name of the Ingress and then by entry |
| DeclarationLaws.RefusedExactly | internal/translator/gateway.go:170-200 | an Ingress carries an Error for a TLS entry exactly when it is live and the entry has no Secret name, or has one and no host applies to it |
| Collect.CollectDeclarations | internal/translator/gateway.go:170-226 | the collecting loops leave the owners, declarers and issues of absorbing the flattened declarations one by one |
| Collect.OwnerIsFirstDeclared | internal/translator/gateway.go:207-223 | a host is owned exactly when declared; its Secret is the first declared for it and its recorded source the last Ingress agreeing with it |
| Collect.DeclaredByIsDeclarers | internal/translator/gateway.go:208-211 | the declarers recorded for a host are exactly the Ingresses with a declaration of it, conflicting ones included |
| Collect.FlaggedExactly | internal/translator/gateway.go:212-221 | an Ingress carries a conflict Error for a host exactly when it made a declaration against the owner's Secret or was the last to agree before one |
| Collect.DeclarationAccounted | internal/translator/gateway.go:207-224 | every declaration names the Secret that owns its host or its Ingress carries a conflict Error |
| Collect.LateAgreementUnflagged | internal/translator/gateway.go:212-223 | of three declarations, the second against the Secret of the others, exactly the first two sources carry a conflict Error |
| ConflictLaws.PlanFlagsExactly | internal/translator/gateway.go:170-291 | in a whole plan an Ingress carries a conflict Error for a host exactly when it declared against the host's Secret or was the last to agree before such a declaration |
| ConflictLaws.LatePartyUnflagged | internal/translator/gateway.go:121-354 | three Ingresses of which the third names the Secret its host has, is served, and carries no conflict Error, while the other two do |
| Projecting.GroupHosts | internal/translator/gateway.go:228-255 | grouping gives each target, in order, exactly the claims of the hosts that collapse onto it |
| Election.SameClass | internal/translator/gateway.go:366-398 | Secrets in one class are the same Secret or have equal fingerprints |
| ListenerLaws.SameClassExactly | internal/translator/gateway.go:366-398 | Secrets are in one class exactly when they are the same or have one non-empty fingerprint |
| ListenerLaws.GroupExactly | internal/translator/gateway.go:228-255 | grouped under a wildcard are exactly itself and the hosts one label below it whose parsed certificate names it |
| ListenerLaws.OneChainCollapses | internal/translator/gateway.go:462-473 | when the hosts under a wildcard all have one certificate chain, all are served by it |
| ListenerLaws.LiteralDecides | internal/translator/gateway.go:406-412 | a declared wildcard serves exactly the hosts below it with its own chain |
| Election.BeatsTotal | internal/translator/gateway.go:448-457 | of two classes exactly one scores better, first Secrets breaking every tie |
| Election.WinnerExists | internal/translator/gateway.go:406-460 | every wildcard group has a winner: the class of its literal declaration, else one better than all others |
| Election.WinnerUnique | internal/translator/gateway.go:406-460 | the winner is unique, so the order classes are visited in cannot matter |
| Resolve.CountChurn | internal/translator/gateway.go:419-446 | the churn loop counts exactly the group's hosts whose serving listener (own placement first, else the wildcard's) would change if the class won |
| ElectionLaws.ChurnIsRerouting | internal/translator/gateway.go:419-446 | that count is of exactly the hosts whose reference, looked up in the previous placements, would change if the class won |
| ElectionLaws.ElectedReroutes | internal/translator/gateway.go:419-446 | for the elected class these are the hosts whose listener in the new plan is not the one looked up in the previous placements |
| ElectionLaws.ElectedReroutesFewest | internal/translator/gateway.go:406-460 | no class would reroute fewer hosts than the elected one |
| ElectionLaws.ElectedExactly | internal/translator/gateway.go:406-460 | in a group without a literal declaration a class is elected exactly when against every other it reroutes fewer hosts, or as many with more hosts, or ties and its first Secret comes first |
| Resolve.BestClass | internal/translator/gateway.go:414-460 | scoring and sorting the classes finds the elected one |
| Resolve.ResolveWildcardGroup | internal/translator/gateway.go:360-485 | a group yields its elected class's wildcard listener with the standing Secret if still in the class, and one exact listener for each host of any other class |
| ListenerLaws.KeepsSecret | internal/translator/gateway.go:462-473 | a wildcard listener that stood before keeps its Secret while a host it serves has that Secret |
| ListenerLaws.TakesFirstSecret | internal/translator/gateway.go:462-473 | otherwise it has the Secret of a host it serves that is least by namespace/name; an exact listener has its host's |
| Election.ListenerShape | internal/translator/gateway.go:257-270 | a wildcard listener serves exactly its group's elected class, an exact listener exactly itself |
| Projecting.SameListenerSameTarget | internal/translator/gateway.go:257-270 | hosts of different groups never share a listener, which makes the map by hostname lossless |
| Projecting.WinnerProjected | internal/translator/gateway.go:464-473 | the elected class's hosts are served by the wildcard listener, which is projected |
| Projecting.FallbackProjected | internal/translator/gateway.go:475-483 | a host of a losing class is projected as its own exact listener |
| Projecting.ProjectGroups | internal/translator/gateway.go:257-270 | the projected listeners are exactly those that serve some declared host, each once, with their Secret and sorted hosts |
| Placing.FirstFree | internal/translator/gateway.go:536-549 | the unbounded search ends, at the first parent with a free slot |
| Placing.InheritedPlacement | internal/translator/gateway.go:558-580 | the inherited index is that of the first member with a placement, or of the wildcard above an exact host |
| ListenerLaws.WildcardParentExactly | internal/translator/gateway.go:571-578 | the wildcard above a host replaces exactly its first label |
| ListenerLaws.InheritedExactly | internal/translator/gateway.go:558-580 | a listener inherits a parent exactly when a relative was placed there: the least other host of a wildcard, the wildcard one label up of a host |
| Placing.PlaceListeners | internal/translator/gateway.go:496-552 | the three passes compute the specified placement and leave over the specified listeners |
| PlacingLaws.PlacementSound | internal/translator/gateway.go:496-552 | no listener is lost or placed twice, every parent is usable and within capacity, and one is left over only without overflow and with a full Gateway |
| PlacingLaws.NoOverflowExact | internal/translator/gateway.go:536-551 | without overflow exactly min(n, 63) of n listeners are placed, all on the Gateway |
| PlacingLaws.StickyExactly | internal/translator/gateway.go:520-526 | a listener keeps its parent exactly when that parent is usable and has not filled up with earlier listeners that were there too |
| PlacingLaws.Sticky | internal/translator/gateway.go:520-526 | from any acceptable placement every listener still projected keeps its parent |
| PlacingLaws.InheritsUnlessFull | internal/translator/gateway.go:528-534 | a new listener goes where its relative is unless that parent ends up full |
| ListenerLaws.TakesParentOfKin | internal/translator/gateway.go:528-534 | in a plan, a listener new to it takes the parent its placed relative had unless that parent ends up full |
| HeirLaws.InheritsExactly | internal/translator/gateway.go:520-534 | from an acceptable placement, a newcomer gets the parent it inherits exactly when the listeners that keep it and the earlier newcomers that inherit it leave room |
| PlacingLaws.FirstFit | internal/translator/gateway.go:536-549 | a listener placed by the last pass has only full parents below it |
| PlacingLaws.AdmittedInOrder | internal/translator/gateway.go:536-551 | without overflow no newcomer gets a slot an earlier newcomer was refused |
| PlacingLaws.FromScratch | internal/translator/gateway.go:496-552 | without previous placements listener k of n is on the Gateway if k < 63, else on set 1 + (k - 63) / 64 |
| PlacingLaws.SetsUsed | internal/translator/gateway.go:496-552 | n listeners then use exactly the sets up to ceil((n - 63) / 64) |
| Planner.BuildManagedGateway | internal/translator/gateway.go:121-354 | the whole planner returns the specified plan |
| PlanLaws.GatewayAdmitsExactly | internal/translator/gateway.go:335-340 | the Gateway admits ListenerSets exactly when it is told to or some listener is placed on one |
| PlanLaws.ReferencesResolve | internal/translator/gateway.go:305-334 | the reference recorded for a host names a listener the plan emits on the parent it names, for the host or its wildcard, with the placement's Secret |
| PlanLaws.HttpFirst | internal/translator/gateway.go:128-154 | the first listener of the Gateway is plain HTTP on port 80 and all others are HTTPS |
| PlanLaws.PlanKeepsSecret | internal/translator/gateway.go:462-473 | in a plan's placements a standing wildcard keeps its Secret while a host it serves has it |
| PlanLaws.PlanTakesFirstSecret | internal/translator/gateway.go:462-473 | and otherwise has the least Secret of its hosts |
| Planner.ChangedTLSHosts | internal/translator/gateway.go:658-667 | the reported hosts are those whose looked-up previous reference is missing or differs from the plan's |
| PlanLaws.ReportedExactly | internal/translator/gateway.go:637-667 | a host with a section is reported exactly when neither it nor its wildcard was placed before, or the one looked up has another reference |
| PlannerLaws.PlacementsSound | internal/translator/gateway.go:272-325 | a plan's placements and its unplaced listeners partition the projected ones, within every parent's capacity |
| PlannerLaws.PlacementsNonNegative | internal/translator/gateway.go:326-334 | indices stay non-negative from plan to plan, so no placed listener escapes emission |
| PlannerLaws.PlanSticky | internal/translator/gateway.go:520-526 | in a whole plan every hostname still projected keeps its index |
| PlannerLaws.LookupsAgree | internal/translator/gateway.go:637-653 | for every host with a section the lookup from placements gives that section |
| PlannerLaws.ChangedExactly | internal/translator/gateway.go:658-667 | for a host served in two successive plans, it is reported exactly when its reference differs |
| PlannerLaws.CapacityErrorsExact | internal/translator/gateway.go:276-291 | the capacity Error for a host reaches exactly the declarers of a declared host without a section |
| PlannerLaws.ServedCertificate | internal/translator/gateway.go:462-473 | the certificate serving a host is its own Secret's or has the same fingerprint, and covers it when it collapsed |
| PlannerLaws.DeclarationServedOrReported | internal/translator/gateway.go:110-120 | given non-negative previous indices, every declaration is served by a listener, its own or its one-label wildcard's, that the plan emits exactly once, on exactly one parent, with an equal certificate covering the host, or its Ingress carries an Error for that host |
| PlannerLaws.EmittedExactly | internal/translator/gateway.go:305-325 | each parent lists exactly the listeners placed on it, each once |
| PlannerLaws.EmittedOnceExactly | internal/translator/gateway.go:305-334 | a placed hostname is emitted on some parent exactly when its index is non-negative, and then once, on one parent |
| PlannerLaws.SetsExactly | internal/translator/gateway.go:326-334 | emitted sets ascend, are never empty and are exactly the used indices |
| PlannerLaws.GrantsExact | internal/translator/gateway.go:342-352 | grants are exactly the cross-namespace Secrets of placed listeners, each once |
| PlannerLaws.OrderIndependent | internal/translator/gateway.go:160-168 | permuting distinct Ingresses changes nothing in the plan |
| Replan.ReelectedExactly | internal/translator/gateway.go:414-460 | replanning from a plan's own placements re-elects a class exactly when the hosts a change would move outnumber the stranded ones it would rescue, or tie and it wins the tie, against every other class |
| Replan.StandingIncumbentOutlasts | internal/translator/gateway.go:414-460 | a class that won while its wildcard already had a listener is re-elected whatever is left unplaced |
| Replan.ReplanFixpoint | internal/translator/gateway.go:414-472 | when all groups re-elect, placements and sections are the same and every lookup agrees |
| Replan.NothingStranded | internal/translator/gateway.go:414-472 | with nothing left unplaced every group re-elects |
| Replan.RebuildIsFixpoint | internal/translator/gateway.go:121-354 | when every declared host is served, rebuilding from the plan's own placements gives the same plan |
| Replan.RebuildChangesNothing | internal/translator/gateway.go:658-667 | and reports no host as changed |
| ReplanExample.ReplanFlips | internal/translator/gateway.go:414-460 | a family of demands on a full Gateway where the second plan elects the other class |
| Rebuild.RebuildExactly | internal/translator/gateway.go:121-354 | from any placement within capacity, rebuilding a plan from its own placements gives the same plan, issues included, exactly when every elected class outlasts every other |
| ReplanExample.ExampleFacts | internal/translator/gateway.go:414-460 | a demand with a placement within capacity, no index negative, in which an elected class does not outlast the other |
| ReplanExample.ExampleUnstable | internal/translator/gateway.go:121-354 | an Ingress with that demand, whose plan rebuilt from its own placements is another plan |
| Observing.RecordObservedListeners | internal/controller/managed_gateway.go:83-108 | recording merges a parent's HTTPS listeners into the placements, the lower index winning |
| Observing.RecordedExactly | internal/controller/managed_gateway.go:83-108 | a parent shows a host with a Secret exactly when its first HTTPS listener on port 443 for the host with a certificate reference names the Secret, by default in the parent's namespace |
| Observing.ObservedListenerPlacements | internal/controller/managed_gateway.go:37-78 | the bootstrap finds exactly the hostnames of trusted parents, each at its lowest index |
| Runs.Reconciler.PruneListenerSets | internal/controller/managed_gateway.go:112-129 | pruning deletes only managed sets that are not desired, and all of them exactly when the list call and every deletion succeed |
| Runs.Reconciler.ApplyPlan | internal/controller/ingress_controller.go:315-356 | wherever a failure ends the apply, the cluster is in one of the specified intermediate states, nothing that is somebody else's is touched, and it succeeds, in the final one, exactly when no read, list, write or deletion fails and no object in the way, grants included, is somebody else's |
| Runs.Reconciler.ReconcileManagedGateway | internal/controller/ingress_controller.go:269-360 | one reconciliation plans from memory or from the observed cluster, commits the placement before writing, takes one specified step, and completes exactly when its first reads succeed, the apply has calls enough and nobody else's object is in the way; the affected Ingresses are pushed, as far as there is room, exactly when it completes |
| RunLaws.EmitObserveIdentity | internal/controller/managed_gateway.go:37-108 | observing a cluster that reflects a plan rebuilds exactly the plan's placements |
| RunLaws.CompletedReflects | internal/controller/ingress_controller.go:315-356 | a reconciliation without failure leaves the cluster reflecting its plan exactly when the sets the plan uses have distinct names |
| CompletionLaws.GrantsAreNeeded | internal/controller/ingress_controller.go:315-356 | after a complete reconciliation the bridge's grants are exactly those for Secrets of placed listeners outside the Gateway's namespace, open to ListenerSets exactly where there are any |
| CompletionLaws.SetsLeft | internal/controller/managed_gateway.go:112-129 | and its ListenerSets exactly the plan's |
| CompletionLaws.SetsAreAdmitted | internal/translator/gateway.go:335-340 | and beside any of these stands a Gateway that admits it |
| CompletionLaws.RunKeepsForeign | internal/controller/ingress_controller.go:362-377 | along any run of partial reconciliations and restarts no Gateway, ListenerSet or ReferenceGrant of somebody else's is changed or deleted |
| RunLaws.DistinctDigestsSuffice | internal/naming/naming.go:34-39 | they have when the digests in those names differ |
| RunLaws.CrashSafe | internal/controller/ingress_controller.go:309-356 | dying anywhere while applying a sticky successor, the bootstrap keeps the index of every hostname of both plans and finds all others where one of the plans put them |
| RunLaws.CrashDuringReconcile | internal/controller/ingress_controller.go:288-356 | the same for a reconciliation of any Ingresses and certificates started from a fully applied plan |
| RunLaws.RestartAfterCompletion | internal/controller/ingress_controller.go:288-294 | after a complete reconciliation a restart rebuilds the lost memory exactly |
| RunLaws.ReachedOk | internal/controller/ingress_controller.go:315-356 | every intermediate state keeps every parent within its limits and granted, as a parent of its kind, for its Secrets |
| RunLaws.ObservedOk | internal/controller/managed_gateway.go:37-108 | what the bootstrap rebuilds is within capacity with non-negative indices |
| RunLaws.StepSafe | internal/controller/ingress_controller.go:269-360 | one partial reconciliation or restart keeps these limits in cluster and memory |
| RunLaws.RunSafe | internal/controller/ingress_controller.go:269-360 | they hold in every state of every run of partial reconciliations and restarts |
| RunLaws.RunSticky | internal/controller/ingress_controller.go:288-313 | along a run, a hostname that stays in memory stays on its parent |
| RunLaws.RunKeepsParent | internal/controller/ingress_controller.go:288-356 | from a cluster that reflects a placement, along any run with restarts and partial applies, a hostname in every plan is placed, and found by a bootstrap, on the parent it had |
| Settling.NextPlanSame | internal/controller/ingress_controller.go:288-313 | the next plan of the same Ingresses and certificates is the same exactly when every elected class outlasts every other |
| Settling.ServedIsStable | internal/controller/ingress_controller.go:288-313 | which is so whenever every declared TLS host got a listener |
| Settling.Converges | internal/controller/ingress_controller.go:269-360 | from any safe state one complete reconciliation of such a plan reflects it, and no number of further reconciliations of the same Ingresses and certificates and restarts, failing anywhere, changes the cluster or remembers another placement |
| Settling.MovedIsPushedExactly | internal/controller/ingress_controller.go:309-359 | an Ingress with a route on a listener that moves is pushed by the reconciliation that moves it exactly when that completes, room permitting |
| Settling.RetryReportsMoves | internal/controller/ingress_controller.go:308-313 | a reconciliation reports a host served by the plan committed last, applied or not, and by its own, exactly when its reference differs between the two |
| Settling.RetryPushesNobody | internal/controller/ingress_controller.go:308-359 | after a stable plan was committed, reconciling the same Ingresses and certificates again pushes nobody, however far the first attempt got |
| LostPush.PushIsLost | internal/controller/ingress_controller.go:308-359 | a run from an empty cluster in which the listener of a routed host moves, the apply fails, the retry completes, and neither pushes anybody |
| CertificateCache.CertificateStore.CertificateInfos | internal/controller/certificates.go:128-174 | fails exactly when a referenced uncached Secret cannot be read, keeping what was read; otherwise the cache holds exactly the referenced Secrets, old entries first, and the result their certificates |
| CertificateCache.ReferencedExactly | internal/controller/certificates.go:141-150 | referenced are exactly the Secrets TLS entries name, in the Ingress's namespace |
| CertificateCache.ResolveMeaning | internal/controller/certificates.go:140-161 | lookups fail exactly on an unreadable uncached reference, add one entry per such Secret and change none |
| CertificateCache.StepKeeps | internal/controller/certificates.go:194-236 | writes, event deliveries, reselections, reads, prunes and syncs keep the cache coherent |
| CertificateCache.StaleExactly | internal/controller/certificates.go:128-236 | in every reachable state with nothing pending, an entry is stale exactly when the last change ignored since it was read left another certificate; one referenced ever since is current |
| CertificateCache.ForgottenIsCurrent | internal/controller/certificates.go:163-172 | in a run where no Secret is cached when it becomes referenced, every referenced entry with nothing pending is current |
| CertificateCache.CachedUntilDropped | internal/controller/certificates.go:128-236 | in any run whose reads are of referenced Secrets, a Secret stays cached while unreferenced exactly as long as no plan ends and no sync starts |
| CertificateCache.PlanBetweenIsCurrent | internal/controller/certificates.go:163-172 | in such a run, if a plan has ended whenever a Secret becomes referenced again, every referenced entry with nothing pending is current |
| CertificateCache.PlannerSeesCurrent | internal/controller/certificates.go:128-174 | a call with nothing pending and no change ignored hands the planner exactly the current certificates of the referenced Secrets |
| CertificateCache.StaleReuse | internal/controller/certificates.go:163-172 | a run after which a referenced Secret's old certificate stays cached with nothing pending |
| Finalizer.Source.DeleteListItems | internal/controller/ingress_controller.go:418-438 | without error no unkept object of the listed kind remains |
| Finalizer.Source.PruneSource | internal/controller/ingress_controller.go:379-416 | success means only kept objects remain, the status object too when included |
| Finalizer.Source.CleanUp | internal/controller/ingress_controller.go:114-155 | a cleaned source has no generated object, and the finalizer goes only after that |
| Finalizer.Source.Reconcile | internal/controller/ingress_controller.go:79-261 | between any two calls, users acting in between and any call failing, generated objects exist only under the finalizer; undisturbed, it ends with nothing generated and the finalizer off, or with exactly the desired and status objects under it |
| Finalizer.Lifetime | internal/controller/ingress_controller.go:79-261 | the same over any number of reconciliations |
| Routes.LongestUnique | internal/translator/translate.go:1515-1526 | two longest covering wildcards are the same, whatever order the map is walked in |
| Routes.MatchingTLSHost | internal/translator/translate.go:1509-1527 | a host matches itself if declared, else the longest covering wildcard |
| Routes.MatchedExactly | internal/translator/translate.go:1509-1527 | a declared host is matched to itself, any other to a declared wildcard above it that no other exceeds in length, or to none when there is none |
| Routes.CollectHosts | internal/translator/translate.go:407-503 | the distinct mentioned hosts in order, each with the paths of its rules and default backend in order, aliases with the first host's, each matched against the given TLS hosts or, without any, its own; and the issues raised |
| Routes.RoutedExactly | internal/translator/translate.go:434-490 | routed are exactly the hosts of rules with an HTTP section, the empty host of a default backend and, beside these, the aliases, which have the paths of the first of them |
| Routes.MatchedAgainst | internal/translator/translate.go:407-430 | hosts are matched against the TLS hosts given, and without any against those the Ingress's own TLS entries apply to |
| Routes.OwnPathsExactly | internal/translator/translate.go:434-470 | a host's paths are exactly those of its rules and, for the empty host, "/" of the default backend |
| Routes.PathsInOrder | internal/translator/translate.go:434-460 | and they keep the order of the rules and of the paths in them |
| Routes.WarnedExactly | internal/translator/translate.go:470-489 | an Ingress is warned of exactly the aliases that are no host of its rules and that no TLS host covers, if it has TLS at all |
| Routes.ErrorsExactly | internal/translator/translate.go:407-503 | these hold an Error exactly when the Ingress routes nothing, a rule has no HTTP section, or TLS hosts are inferred and a TLS entry names none |
| Routes.SplitCSV | internal/translator/translate.go:1460-1478 | an alias list yields its non-empty trimmed items, each once, in order |
| Routes.RouteTLSHostnames | internal/translator/translate.go:1324-1345 | the distinct declared hosts the rules and aliases of an Ingress are matched to |
| Routes.AttachedCoversInputs | internal/translator/translate.go:492-502 | every declared host a route attaches to is among the Ingress's TLS hostnames |
| Routes.AffectedIngresses.Enqueue | internal/controller/managed_gateway.go:134-166 | the affected Ingresses are pushed in order until the channel is full |
| Routes.MovedIsPushed | internal/controller/managed_gateway.go:134-166 | once enqueuing runs, every Ingress with a route matched to a declared host whose listener differs between two plans is pushed, room permitting |
| Canary.RouteFootprints | internal/controller/canary.go:61-80 | the footprints are the host and path pairs of the HTTP rules, and the default backend's |
| Canary.OldestPrimary | internal/controller/canary.go:39-57 | the oldest primary, names breaking ties, that declares every footprint of the canary, if any |
| Canary.CanaryAssignments | internal/controller/canary.go:23-59 | exactly the canaries with a primary are assigned, each to its one primary |
| Canary.PrimaryUnique | internal/controller/canary.go:50-57 | a canary has at most one primary |
| Canary.PrimaryIsOldest | internal/controller/canary.go:50-57 | no other primary with all the canary's footprints is older, or as old with a lesser name |
| Canary.AssignmentOrderIndependent | internal/controller/canary.go:23-59 | the order of the list does not matter |
| Canary.TranslateRoutes | internal/translator/translate.go:108-158 | every collected host gets one route: the primary's rules, then each canary's for that host, each with its match type, path, header match and backend, and two canaries claiming one host and path are reported, as is a route with more than 16 rules |
| Canary.CrowdedExactly | internal/translator/translate.go:148-154 | a route is refused exactly when its host's own paths and the canaries' rules for it exceed 16 |
| Canary.ClashExactly | internal/translator/translate.go:112-127 | a clash is reported exactly when two of the canaries have a rule for one host and path |
| Canary.ClashNames | internal/translator/translate.go:117-126 | each clash names two canaries with one path for one host, the earlier first |
| Claims.OwnersMean | internal/translator/translate.go:117-126 | a host and path belongs to the first canary with a rule for it |
| Canary.RouteHoldsCanary | internal/translator/translate.go:134-143 | of one canary a route holds exactly the rules collected from it for that host, in order |
| Canary.PrimaryRuleAt | internal/translator/translate.go:556-610 | a route starts with a rule for each of the primary's paths, in order, with its match type, path and backend and no header match |
| Canary.CanaryRuleAt | internal/translator/translate.go:134-143 | then, canary by canary, it has a rule for each path the canary has for the host, with the canary's header match and backend and the primary's regex switch, and no other |
| Canary.CanaryHostRouted | internal/translator/translate.go:108-132 | a primary routes every host its canary has a rule for, inherited aliases included |
| Canary.CanaryConserved | internal/translator/translate.go:108-158 | each rule collected from an assigned canary appears in exactly one route |
| AuthHeaders.ReadOverrides | internal/translator/translate.go:1126-1149 | a ConfigMap is rejected exactly for an unsafe header or two names equal but for case |
| AuthHeaders.MergeHeaders | internal/translator/translate.go:1126-1180 | the merge rejects or writes the specified lines |
| AuthHeaders.DefaultsDistinct | internal/translator/translate.go:1157-1173 | no two default headers share a name, whatever the case |
| AuthHeaders.NamesDistinct | internal/translator/translate.go:1150-1180 | no header is sent twice, whatever the case |
| AuthHeaders.SentExactly | internal/translator/translate.go:1150-1180 | every given header is sent with its value, every default not overridden with its own, and nothing else |
| AuthHeaders.LinesInOrder | internal/translator/translate.go:1150-1180 | the defaults come first under their own names, the other headers after them under the names given, in order |
| AuthHeaders.GivenValueIsSent | internal/translator/translate.go:1139-1149 | a blank value is sent as the empty nginx string, any other as given |
| Naming.DNSLabel | internal/naming/naming.go:14-40 | at most 63 bytes: the text's words of letters and digits in lower case joined by single dashes, or "resource" when it has none, cut to 54 bytes less a trailing dash, and the digest; a label of section 2.1 of RFC 1123 exactly when no byte kept is of a letter outside ASCII |
| Naming.KeepsWhatFits | internal/naming/naming.go:31-38 | words of up to 54 bytes are kept whole, of longer ones 53 or 54 bytes |
| Naming.AsciiGetsLabel | internal/naming/naming.go:14-40 | the name of an ASCII text is a label |
| Naming.ForeignGetsNoLabel | internal/naming/naming.go:22-27 | the name of a text that begins with a letter outside ASCII is none |
| Naming.JoinedShape | internal/naming/naming.go:20-31 | joined words start and end with a letter or digit, have no two dashes in a row and keep exactly the text's letters and digits in order |
| Naming.DigestsDistinguish | internal/naming/naming.go:34-39 | texts with different digests get different names |

## Left out

- Unicode: outside `Naming`, strings are compared and lower-cased as Go does it on ASCII; case mapping beyond that is not modelled. `Naming` takes lower case, letters and UTF-8 as a parameter.
- The digest of generated names is a parameter, and four bytes of a hash can collide. Lemmas that need distinct ListenerSet names ask for them among the sets a placement uses, no others.
- ReferenceGrants are keyed by their Secret instead of by name, and carry only which parents they admit.
- Namespaces are taken to be non-empty and free of slashes, hosts free of NUL, names unique per namespace.
- Equal fingerprints are taken to mean equal certificates, hence equal wildcard SANs.
- Parsing of certificates and PEM data, and the JSON projection kept in the informer cache.
- Text of messages, severities other than Error, labels other than the set index, and object shapes beyond listeners.
- Go's sort is modelled as insertion sort on keys that are proved distinct.
- The options of the controller, whether ListenerSets are available among them, stay fixed over a run.
- Informer lag on bootstrap: the observed cluster is the current one.
- Objects that are not the bridge's own appear only as applies that are refused; one that carries the bridge's label is taken to be of this Gateway.
- The push channel is taken to be set up; without one nobody is pushed.
- Canary.TranslateRoutes: a backend is a Service name without its port; filters, rewrites, policies and the other settings of a rule are not modelled.
- Routes.AffectedIngresses.Enqueue: nobody drains the channel during the call.
- AuthHeaders.MergeHeaders: the redirect value is given; the rest of the auth location is independent text.
- Finalizer.Source.Reconcile: reads are current, and the status label on the Ingress is not modelled.
- A host newly gaining TLS from an already standing wildcard listener is not claimed to be reported as changed.
- Translation of individual annotations, policies, parent references, redirects and status readiness: independent branches a reading settles.
- Workqueues, watches, rate limits, leader election and the ten-second settling delay, of which only "a sync is pending" remains.

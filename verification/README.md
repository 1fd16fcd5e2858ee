# A verified model of capmesh

capmesh is a capability registry: it discovers capabilities, merges and indexes
them in SQLite, holds new content in quarantine until it is scanned and
released, reviews and promotes capabilities, decides who may use them, and keeps
a hash-chained log.  This project models those parts in Dafny and proves what
they keep over every input and every run.

Tables are maps, sets and sequences; code that updates them in place is modelled
by classes whose methods are proved equal to specification functions, and the
properties are lemmas about those functions.  Verify everything with
`dafny verify dfyconfig.toml`.

| file | models |
|---|---|
| `DependencyGraph`, `DeploymentOrder`, `DependencyTable` | cycle detection, topological sort and the table they read |
| `Model`, `Merge`, `MergePipeline`, `MergeAuthority`, `Namespaces` | capabilities, the two authority merges and whose file wins them, default placement |
| `Catalog`, `Ingest`, `CatalogStore` | upsert, URI migration, source rows, search index, orphan retirement |
| `SearchIndex`, `Standing`, `IngestOutcome` | what the index lets a search find, what becomes of approvals and lifecycles when content is found again, when an ingest raises and what its counters add up to |
| `Origins`, `PathOwnership`, `PromotedCatalog` | what an ingest does, told from the tables before it: which row each capability refreshes, where it is stored, who owns its paths; promotions before an ingest |
| `Quarantine`, `Custody`, `Coverage`, `AuthoritativeRelease` | the quarantine protocol, its runs together with ingest, the composed release |
| `Samples`, `MovedRejection` | small inputs, and a run that ends badly |
| `RegistryLog` | the hash-chained log, its two writers and its verifier |
| `CatalogApproval`, `ReviewEvidence` | gate reviews, paging through the catalog, what an approval is backed by |
| `AccessControl`, `AccessLocality`, `AccessService` | the access cascade, which rows a decision depends on, its cache and its decisions |
| `Promotion`, `PromotionOutcome` | URI re-mint on approval, what each decision leaves behind, when addresses collide |
| `EmbeddingBreaker`, `GuardPolicy` | the embedding circuit breaker, the CapGuard verdict |
| `Text`, `Types` | string order, sorting, options and results |

## How the source is read

- SHA-256 is any injective function with non-empty, bar-free output.  A run's
  parameter `trust` says which signatures are valid under the key they embed and
  which key is the resolved trust anchor, if any.  Gates, the policy verdict, the
  clock, vault placement and minted identifiers are parameters; a batch is what
  placement hands over, capabilities it files as promoted and approved included.
- An ingest is one step.  Its quarantine phase commits by itself, its catalog
  phase commits or rolls back.
- Metadata lists that the code builds with `sorted` over a set are kept as sets.
  Paths are the normalized ones discovery records.  Row ids come from a counter.
- `_upsert_discovered` runs the URI merge in its default, non-strict mode; the
  strict mode is covered for the merges themselves.

## Where code and documentation or expectation differ

The model follows the code.

- Ingest promises that every discovered path is owned.  It is, exactly when no
  capability of the batch is carried over to a promoted address that a later one
  names (`PathOwnership.AdmittedPathsOwnedIff`; an input that fails is
  `PathOwnership.CarriedOverPathLost`).
- Quarantine-before-indexing promises that no row escapes.  Rows can: when the
  batch moves a rejected row away by its canonical key and another capability
  takes the old address with the same content, that content is exempt from
  quarantine because the address still showed its hash when the batch began.  A
  vault-placed capability then ends up approved and published
  (`MovedRejection.RejectedContentPublished`).  Other ways out are system or
  draft rows, rows of another tenant, and changed content carried over to a
  promoted address, since the hold was placed on its own address
  (`Coverage.UnsafeOnlyIf`; the exact condition is `Coverage.NextCoveredIff`).
- `_migrate_canonical_uri` says it does not orphan governance rows; capability
  scoped role assignments stay at the old address
  (`Ingest.MigrationStrandsRolesOnly`).
- `approve_catalog` never selects capabilities in state `published`, the state a
  quarantine release sets, nor verified ones whose lifecycle is not `published`,
  yet counts both as non-compliant (`CatalogApproval.PublishedBlocksApproval`,
  `CatalogApproval.UnpublishedBlocksApproval`).
- `release_from_quarantine` comments that a missing trust anchor fails closed;
  it passes no anchor on, so a clean scan by any key releases.  Releases fail
  closed if and only if an anchor was resolved (`Quarantine.FailsClosedIff`,
  `Quarantine.ForeignKeyReleases`).
- `release_capability_from_quarantine` promises a release only when the policy
  allows.  The capability it asks about is hidden by the hold being released, so
  unless the caller passes one the policy is not consulted
  (`AuthoritativeRelease.OwnRowSkipsPolicy`, `AuthoritativeRelease.PolicyConsultedIff`).
- An approved row that a canonical-key migration moves keeps its approval at an
  address without a review (`ReviewEvidence.ApprovalOutlivesReview`; exactly when
  is `ReviewEvidence.RunEvidencedIff`).
- `CapGuardPolicy` documents `fail_closed`, `allow_cire_downgrade` and
  `deny_on_high_findings` as relaxations; the verdict ignores all three
  (`GuardPolicy.IdleSettings`).
- Adding a role or a group to a principal can revoke access, because it becomes
  a subject that deny tuples match (`AccessControl.WiderTokenKeepsAccessIff`).
- The organization cache also caches absence (`AccessService.NegativeAnswerGoesStale`);
  decisions follow the cache, stale or not (`AccessService.Service.EvaluateAccess`).
- `approve_request` says that the plugin qualifier keeps promoted addresses
  apart.  It does when no plugin slug holds a dot, which `slugify` allows; in
  general two capabilities collide exactly when type, dotted name and version
  agree (`PromotionOutcome.SameAddressIff`, `PromotionOutcome.PluginsApartIff`;
  an instance is `PromotionOutcome.DottedPluginsCollide`).
- A promotion moves only the approved request to the new address
  (`Promotion.OtherRequestsStay`).

## Model

| member | source | states |
|---|---|---|
| `DependencyGraph.DetectCycles` | capmesh/dependency_graph.py:129-160 | the result is empty if and only if the graph has no closed walk; every list is a closed walk along edges that repeats only its ends; for one order of the capabilities the lists close exactly at the rows that run against it, once per row; and the graph without the closing rows has no cycle |
| `DependencyGraph.CycleFinder.Dfs` | capmesh/dependency_graph.py:144-155 | a call visits its node, restores the recursion stack and path, keeps every cycle reported before it, and keeps the invariant: reported cycles are genuine and, unless there is one, nodes finish after their dependencies |
| `DependencyGraph.CycleFinder.Explore` | capmesh/dependency_graph.py:148-153 | the neighbour loop restores path and stack, keeps the invariant, finishes every neighbour that is not on the stack, and reports one cycle per row that leads back to the stack |
| `DependencyGraph.CycleFinder.Visit` | capmesh/dependency_graph.py:149-153 | one neighbour: descends into an unvisited one, reports the path from one that is on the stack, and counts exactly that report |
| `DependencyGraph.CutsAllCycles` | capmesh/dependency_graph.py:151-153 | dropping the last hop of every reported cycle leaves a graph without cycles |
| `DependencyGraph.EveryCycleReported` | capmesh/dependency_graph.py:144-160 | every closed walk of the graph runs through the closing hop of a reported cycle, so no knot of mutual dependencies goes unreported |
| `DependencyGraph.CycleFinder.VisitAll` | capmesh/dependency_graph.py:157-160 | every key of the graph ends up visited, with the path and stack empty again and no report lost |
| `DependencyGraph.BuildAdjacency` | capmesh/dependency_graph.py:132-138 | adjacency lists in row order, and keys in the order the rows first name them |
| `DependencyGraph.AcyclicIffNoneDepends` | capmesh/dependency_graph.py:129-160 | there is no cycle exactly when no capability transitively depends on one |
| `DependencyGraph.OrderedNotOnCycle` | capmesh/dependency_graph.py:163-192 | whatever a dependencies-first list holds does not transitively depend on a cycle |
| `DeploymentOrder.TopologicalSort` | capmesh/dependency_graph.py:163-192 | the queue algorithm returns the specified order: no repetition, dependencies first, exactly the capabilities not above a cycle, and of two capabilities the one whose last dependency comes earlier first, by name where they are released together |
| `DeploymentOrder.SortOrderExact` | capmesh/dependency_graph.py:183-192 | the order lists each capability once, after its dependencies, and lists exactly those that do not transitively depend on a cycle |
| `DeploymentOrder.SortOrderByRelease` | capmesh/dependency_graph.py:183-191 | the list is sorted by the position of the last dependency, then by name |
| `DeploymentOrder.OrderedAllIffNoCycle` | capmesh/dependency_graph.py:129-192 | everything is ordered if and only if no cycle is reported |
| `DeploymentOrder.RowOrderIrrelevant` | capmesh/dependency_graph.py:166-192 | the unordered SELECT does not matter: any permutation of the rows gives the same order |
| `DeploymentOrder.CountRows` | capmesh/dependency_graph.py:170-179 | reverse adjacency lists, in-degrees and nodes match the rows |
| `DeploymentOrder.RelaxNeighbors` | capmesh/dependency_graph.py:188-191 | counts every dependent down and queues exactly those that reach zero, in order |
| `DependencyTable.Table.AddDependency` | capmesh/dependency_graph.py:37-67 | refuses self-edges, keeps each edge of a tenant once, touches no other edge |
| `DependencyTable.Table.RemoveDependency` | capmesh/dependency_graph.py:70-79 | removes exactly that edge and says whether it was there |
| `DependencyTable.EdgesUnique` | capmesh/dependency_graph.py:17-67 | the graph read from a valid table has no repeated edge |
| `DependencyTable.CyclesAreProper` | capmesh/dependency_graph.py:47-60 | every cycle of a stored graph runs through at least two capabilities |
| `Merge.WinnerHasTopAuthority` | capmesh/manifest.py:253-297 | the merged capability is one of its group, of maximal authority rank, but for its metadata |
| `MergeAuthority.MergedOutranks` | capmesh/manifest.py:253-297 | the order without its numbers: authored plugin files before Codex system bundles, those before the shared registry, that before other Codex skills, those before every plugin cache and nested mirror; remote-curated before bundled, curated and other Codex cache copies; a Claude cache copy wins only over its like and unknown sources |
| `MergeAuthority.AuthoredWins` | capmesh/manifest.py:262-276 | a group with an authored plugin file outside the nested mirrors is won by such a file |
| `MergeAuthority.TieBreaks` | capmesh/manifest.py:632-643 | among equals the smallest source system and then the smallest path wins, the canonical key first where URIs collide |
| `MergeAuthority.ConflictsRecorded` | capmesh/manifest.py:645-729 | the metadata names exactly the records whose content differs from the winner, and the winner as authority |
| `MergeAuthority.CollisionsRecorded` | capmesh/manifest.py:637-729 | two sources of top authority that differ in content are both listed as ambiguous, under the flag of the merge that met them |
| `Merge.MergeOrderIrrelevant` | capmesh/manifest.py:628-643 | with distinct source paths each merge gives the same capability, and the same ambiguity, for every permutation of the input |
| `Merge.GroupBy` | capmesh/manifest.py:623-625 | groups are exactly the capabilities of each tag, keys in order of first appearance in the input |
| `MergePipeline.MergeDuplicateCapabilities` | capmesh/manifest.py:620-729 | one merged capability per canonical key, each exactly once and in URI order; strict mode raises exactly on an ambiguous key |
| `MergePipeline.MergeByEffectiveUri` | capmesh/index.py:1226-1342 | the specified merge in URI order; strict mode raises exactly on an ambiguous URI |
| `MergePipeline.UriMergeOrderIrrelevant` | capmesh/index.py:1246-1261 | the whole merged list is the same for every permutation of the input |
| `Merge.ContributedExact` | capmesh/index.py:1278-1310 | what a capability brings to the URI merge: its listed records, filled in from itself, and its own values for every other path it lists |
| `MergePipeline.ProvenanceExact` | capmesh/index.py:1264-1342 | the source records of a merged capability are exactly those of the discovered capabilities that end at its URI |
| `MergePipeline.ProvenanceConserved` | capmesh/manifest.py:645-729 | every admitted discovered record lands in exactly one merged capability, whose provenance does not conflict |
| `MergePipeline.ConflictIff` | capmesh/index.py:867-901 | the conflicting-provenance error fires on a merged capability exactly when two discovered records for one path disagree |
| `Model.NoOpSuppressionExact` | capmesh/index.py:620-744 | the conflict WHERE clause holds if and only if the SET clause would change a column other than the timestamp |
| `Model.SourceRecordsExact` | capmesh/index.py:867-901 | the records of a capability are each listed one, with the gaps filled from the capability, and its own values for every path it claims without a record |
| `Standing.RefreshedStanding` | capmesh/index.py:585-680 | one upsert: unchanged content keeps approval, sharing, signature, provenance and risk review, and its lifecycle changes only as the transition table allows and never while approved; changed content loses what it had earned and takes the new lifecycle |
| `Standing.FoundAgain` | capmesh/index.py:1372-1441 | the same for a whole turn of the ingest loop, migration and holds included; an approved promotion keeps its address, store, namespace, visibility and owner |
| `Standing.NewStanding` | capmesh/index.py:1406-1441 | a capability never seen is stored as found, and as a pending draft while it is held |
| `Standing.MeritSurvivesIff` | capmesh/index.py:656-680 | over any number of upserts, approval, sharing or verification survives exactly while every find has the content that earned it; discovery confers none, and old content coming back does not regain it |
| `Standing.LifecycleWalks` | capmesh/index.py:585-601 | with unchanged content every step of the lifecycle is one of the transition table |
| `Standing.DeletedStaysDeleted` | capmesh/lifecycle_transitions.py:22-48 | deleted content stays deleted however often it is found |
| `Standing.TransitionFacts` | capmesh/lifecycle_transitions.py:22-48 | only drafts get published, only disabled capabilities deleted, nothing leaves deleted, and no upsert disables, recalls or yanks |
| `Namespaces.PlacementIdempotent` | capmesh/governance.py:1084-1110 | placing twice is placing once, and a placed capability has a namespaced URI and a tenant |
| `IngestOutcome.PlacedPrivately` | capmesh/governance.py:1084-1110 | what has no namespace becomes a hidden, protected draft of the default user, neither approved nor live; what has one keeps its governance and placement; content and provenance never change |
| `Catalog.KeyOwner` | capmesh/index.py:1379-1385 | finds the row with the canonical key, if there is one |
| `Catalog.Prepared` | capmesh/index.py:1386-1405 | carry-over changes the address and placement of a refreshed promotion but not its key, hash, tenant, governance or source records |
| `Catalog.Expected` | capmesh/index.py:867-901 | the source rows of a capability: one per record, all at its URI, never none |
| `Catalog.MigrateAlmostCoherent` | capmesh/index.py:1133-1147 | migration keeps keys and sources coherent and leaves exactly the moved row's index entry stale |
| `Catalog.UpsertCoherent` | capmesh/index.py:577-864 | an upsert repairs a stale index entry at its URI and leaves the catalog coherent |
| `Catalog.LandCoherent` | capmesh/index.py:1372-1441 | a whole turn of the ingest loop, migration included, keeps keys unique, sources live and the index equal to the rows |
| `Ingest.IngestCoherent` | capmesh/index.py:1345-1544 | after every ingest that commits: unique keys, sources of live rows only, exactly one matching index row per capability, and a source path for every row that is neither system nor draft |
| `SearchIndex.IngestFindable` | capmesh/index.py:1345-1544 | after every ingest that commits, the index entry of each row carries its name, title and description and contains everything that describes it |
| `SearchIndex.CatalogFindable` | capmesh/index.py:794-863 | the same in every coherent catalog |
| `SearchIndex.DescriptionIndexed` | capmesh/models.py:157-167 | each non-empty name, title, description, type, plugin, category and keyword occurs in the index text |
| `IngestOutcome.TurnFailsIff` | capmesh/index.py:1372-1441 | a turn of the loop raises exactly when a tuple is in the way of a move, the canonical key belongs to another row than the address, or the provenance conflicts |
| `IngestOutcome.TurnReports` | capmesh/index.py:1418-1428 | a turn reports "added" exactly for a capability known neither by address nor by key, else whether the stored content changed |
| `IngestOutcome.CountersBalance` | capmesh/index.py:1345-1544 | rows after an ingest are the rows before plus those added less those removed |
| `IngestOutcome.RetirementExact` | capmesh/index.py:1482-1544 | retirement refuses exactly when a source-less row is shared, waiting for promotion, named by a tuple or a role scope; else it removes exactly the source-less rows, and nothing relied on |
| `Ingest.RecordsKeptIff` | capmesh/index.py:827-854 | the records of a capability survive the loop exactly when nothing later lands on its row; otherwise none of its paths is left |
| `Ingest.MigrationStrandsRolesOnly` | capmesh/index.py:1133-1147 | every share, pending or decided promotion request, tuple and policy decision of the old URI names the new one afterwards and nothing else changed; roles stay, so the old URI remains governed exactly if a role is scoped to it |
| `Ingest.RetireCoherent` | capmesh/index.py:1482-1544 | retirement removes exactly the source-less rows that are neither system nor draft and keeps the catalog coherent |
| `CatalogStore.CapabilitySourceRows` | capmesh/index.py:867-901 | raises exactly on conflicting provenance, else returns the expected rows |
| `CatalogStore.Store.WriteRow` | capmesh/index.py:588-791 | writes the specified row and reports a change exactly when the table changed |
| `CatalogStore.Store.SyncSources` | capmesh/index.py:827-854 | path-by-path writes and the trimming DELETE leave exactly the expected rows at the URI |
| `CatalogStore.Store.UpsertCapability` | capmesh/index.py:577-864 | default placement and then the in-place upsert with its no-op shortcut equal the specified upsert; on an error the tables hold exactly what was written before it |
| `CatalogStore.Store.UpsertPlaced` | capmesh/index.py:588-864 | the same for a capability that is placed already, as ingest hands it over |
| `CatalogStore.Store.MigrateCanonicalUri` | capmesh/index.py:1133-1147 | equals the specified migration; no-op on equal or unknown URIs; constraint errors otherwise |
| `CatalogStore.Store.DeleteSourceOrphans` | capmesh/index.py:1482-1544 | equals the specified retirement, fails when an orphan is governed, and counts what it removed |
| `CatalogStore.Store.LandOne` | capmesh/index.py:1372-1441 | one turn equals the specified one and classifies the capability as added, updated or unchanged |
| `CatalogStore.Store.UpsertDiscovered` | capmesh/index.py:1345-1479 | equals the specified ingest; the counters say how many capabilities were new, changed and unchanged at their turns and how many orphans were removed |
| `CatalogStore.TallyComplete` | capmesh/index.py:1418-1428 | the three counters of a finished loop add up to the merged batch |
| `CatalogStore.Store.Transact` | capmesh/index.py:1813-1841 | commits the specified tables or restores the ones before |
| `CatalogStore.Store.Ingest` | capmesh/index.py:1813-1841 | coherence holds after every ingest, committed or rolled back |
| `Quarantine.ScanCleanAttestation` | capmesh/capguard.py:511-545 | returns a clean verifying scan exactly when the newest verifying scan of the item is clean |
| `Quarantine.BlockingScanRefusesRelease` | capmesh/capguard.py:430-487 | after a verifying scan that is not clean, release is refused whatever clean evidence is older |
| `Quarantine.NewScanDecides` | capmesh/capguard.py:535-545 | a verifying scan alone decides whether the item is backed |
| `Quarantine.PlaceSound` | capmesh/capguard.py:198-266 | quarantining keeps one active item per key, and leaves one active for this key |
| `Quarantine.CloseSound` | capmesh/capguard.py:667-694 | closing an item signs exactly the one attestation its new status calls for and keeps the store sound |
| `Quarantine.PlacementRecorded` | capmesh/capguard.py:219-266 | a hold is refused exactly without URI, hash or known reason; it changes nothing while one is active for the content, and is else filed with its reason |
| `Quarantine.StrangerPowerless` | capmesh/capguard.py:269-279 | no item of another tenant and no decided item can be scanned, released or rejected |
| `Quarantine.ScanRecorded` | capmesh/capguard.py:430-487 | a scan signs one verdict about its item, leaves it quarantined, and marks the hold as failed exactly when it blocks |
| `Quarantine.DecisionRecorded` | capmesh/capguard.py:589-773 | a decision closes one item with one attestation; a release has a clean newest scan and no policy against it, a rejection a reason |
| `Quarantine.Store.QuarantineCapability` | capmesh/capguard.py:198-266 | idempotent while active; equals the specification and returns the active item |
| `Quarantine.Store.IssueScanAttestation` | capmesh/capguard.py:430-487 | equals the specification; nothing changes on refusal |
| `Quarantine.Store.ReleaseFromQuarantine` | capmesh/capguard.py:589-708 | releases exactly when the newest scan that verifies under the resolved anchor (the caller's, else the configured one, else none) is clean and the policy, if asked, allows; the update of the capability row is part of the step in `Custody` |
| `Quarantine.Store.RejectFromQuarantine` | capmesh/capguard.py:711-773 | rejects exactly an open item of the tenant with a reason |
| `Quarantine.ForeignKeyReleases` | capmesh/capguard.py:630-645 | with no anchor, a clean scan signed by a foreign key releases although no scan by the anchor exists |
| `Quarantine.FailsClosedIff` | capmesh/capguard.py:630-650 | on every desk a release needs a newest clean scan signed by the anchor, if and only if an anchor was resolved |
| `Custody.QuarantineNewCapabilities` | capmesh/index.py:1619-1716 | the loop equals the specification, items committed before an error included |
| `Custody.QuarantinedBeforeIndexing` | capmesh/index.py:1619-1716 | whatever is not exempt is under an active hold before the catalog is touched |
| `Custody.NextKeeps` | capmesh/index.py:1793-1841 | every ingest, hold, scan, release and reject, whatever the batch, keeps the catalog coherent and the quarantine store sound, and undoes no decision |
| `Custody.ReleaseActivates` | capmesh/capguard.py:667-694 | a release that succeeds makes the row at the item's URI, with its tenant and hash, active and published and changes no other row or column; a refused one changes nothing |
| `Custody.RejectDisables` | capmesh/capguard.py:738-765 | a rejection likewise makes it disabled and rejected |
| `Custody.HoldsAndScansKeepCatalog` | capmesh/capguard.py:198-487 | holds and scans leave the catalog alone |
| `Custody.ReleaseCapability` | capmesh/capguard.py:589-708 | desk and capability rows together: equals the release step of a run |
| `Custody.RejectCapability` | capmesh/capguard.py:711-773 | equals the rejection step of a run |
| `Custody.RunFinal` | capmesh/capguard.py:430-773 | in every state any run can reach: at most one active item per key, releases backed by a clean newest verifying scan, exactly one release or reject attestation per item that left quarantine; and such items never change again |
| `Origins.OriginIsPrevious` | capmesh/index.py:1372-1405 | the row a capability refreshes in mid-batch, whether its URI is occupied, and where it lands, all computed from the tables before the batch |
| `Origins.BatchRow` | capmesh/index.py:1372-1441 | what the last capability stored at an address leaves there: its key, hash, tenant and kind, rejected exactly when its origin was rejected for the same content, and its own governance when nothing stood for it and it is not held |
| `Origins.UntakenAsBefore` | capmesh/index.py:1372-1441 | an address at which nothing of the batch is stored holds its original row, unless the row was moved to the URI of a capability with its key |
| `Origins.PromotionStays` | capmesh/index.py:1386-1405 | an approved promotion stays at its address through any batch and is not rejected by it |
| `PathOwnership.AdmittedPathsOwnedIff` | capmesh/index.py:1345-1544 | after an ingest that commits, every admitted discovered path is owned by a live row with its kind, system and hash if and only if no capability of the batch is carried over to the address of a later one; the condition is on the tables and the batch before the call |
| `PathOwnership.RecordsAfterIngest` | capmesh/index.py:1372-1479 | a merged capability so carried over ends with none of its paths in the table; every other owns all its records at the address computed for it |
| `PathOwnership.SharedAddressIff` | capmesh/index.py:1386-1405 | two capabilities are stored on one row exactly when the earlier is carried over to the address of the later |
| `PathOwnership.CarriedOverPathLost` | capmesh/index.py:1386-1441 | an ingest of two capabilities that commits and leaves the first path unowned |
| `PathOwnership.CarriedOverInputs` | capmesh/index.py:1362-1372 | its tables are coherent and its batch is one discovery, the key merge and placement can produce |
| `PromotedCatalog.PromoteCoherent` | capmesh/promotions.py:414-458 | a promotion keeps keys, sources and index of the catalog coherent and makes the row an approved promotion |
| `PromotedCatalog.PromotedCapFacts` | capmesh/promotions.py:414-441 | the promoted row is approved in its target, published unless it was withdrawn, remembers its first address, and claims no verification it did not have |
| `PromotedCatalog.PromotionSurvivesIngest` | capmesh/index.py:1386-1405 | re-ingesting the source of a promoted capability keeps it, with all its paths, at the promoted address |
| `Coverage.AccountedFor` | capmesh/capguard.py:589-773 | covered means: active item, released item backed by a clean newest scan, or rejected |
| `Coverage.NextCoveredIff` | capmesh/index.py:1605-1716 | a step leaves every indexed capability accounted for if and only if, for an ingest that commits, each capability the batch stores last at its address is settled there or refreshes a row rejected for the same content; incoming approvals and approved rows included |
| `Coverage.IngestCoveredIff` | capmesh/index.py:1372-1441 | the same for the catalog phase, in terms of the tables before it |
| `Coverage.UnsafeOnlyIf` | capmesh/index.py:1663-1674 | stored at its own address, a capability can only escape when its content is unchanged there while the row was moved away by the batch, was a system or draft row, or belonged to another tenant |
| `Coverage.StrayStoredAsGiven` | capmesh/index.py:1428-1441 | when its row was moved away and no row had its key, it is stored with the governance it brings (approved and published if vault-placed) and nothing holds or released it |
| `Coverage.RunCoveredIff` | capmesh/index.py:1619-1716 | every state of a run is covered if and only if each of its ingests is safe |
| `Coverage.RejectionSurvives` | capmesh/index.py:656-660 | re-ingesting unchanged rejected content keeps it rejected unless the batch moved its row away |
| `Coverage.RejectedFinal` | capmesh/index.py:656-660 | a stored row is rejected after an ingest exactly when the row it refreshed was rejected for the same content |
| `MovedRejection.SwapUncovers` | capmesh/index.py:1372-1441 | a family of three-step runs from the empty registry that end with an indexed capability nothing accounts for, stored with the governance it brought |
| `MovedRejection.RejectedContentPublished` | capmesh/vault_placement.py:248-262 | one of them at namespaced addresses: a vault-placed capability with rejected content ends up approved and published |
| `AuthoritativeRelease.ReleasedIff` | capmesh/capguard.py:871-976 | a composed release succeeds exactly when its own scan is clean and the policy, where a capability was loaded, allows |
| `AuthoritativeRelease.PolicyConsultedIff` | capmesh/capguard.py:921-930 | the policy is consulted exactly when the caller passes a capability or the row found for the URI is not itself held |
| `AuthoritativeRelease.OwnRowSkipsPolicy` | capmesh/index.py:2377-2407 | with the item's own content indexed and no capability passed, the policy has no say and the scan alone decides |
| `RegistryLog.VerifyLogChain` | capmesh/registry_log.py:90-112 | valid exactly when every row is linked; otherwise it names the first broken row and which test it fails |
| `RegistryLog.FrameInjective` | capmesh/registry_log.py:40-44 | the bar-joined record determines its fields when the four named fields hold no bar, although the payload may |
| `RegistryLog.FrameJoins` | capmesh/registry_log.py:40-44 | the hashed record is the seven fields in order joined by bars |
| `RegistryLog.BarsCollide` | capmesh/registry_log.py:40-44 | without that condition two different records have one hash |
| `RegistryLog.HeadDeterminesLog` | capmesh/registry_log.py:90-112 | two verifying logs with one head hash have the same length and entries, up to empty versus absent target |
| `RegistryLog.AppendHealthy` | capmesh/registry_log.py:47-87 | the next entry never violates UNIQUE and keeps the chain |
| `RegistryLog.RunHealthy` | capmesh/governance.py:1413-1429 | any interleaving of the two writers verifies, is numbered 1..n and has one row per recorded write |
| `RegistryLog.LogRecordsRun` | capmesh/governance.py:1413-1432 | after any run the log holds exactly the appends and the capability events whose action is not empty, read, list or status, in order, each with its number, type, actor, action, target and payload as given |
| `RegistryLog.LogTable.AppendLogEntry` | capmesh/registry_log.py:47-87 | appends one entry that records the call to a healthy log and keeps it healthy |
| `RegistryLog.LogTable.AuditEvent` | capmesh/governance.py:1386-1432 | records exactly the guarded events, as given, and leaves the log alone otherwise |
| `CatalogApproval.Registry.ReviewInSavepoint` | capmesh/lifecycle.py:669-688 | writes review, row and audit exactly for an unheld passing capability; an exception undoes its writes |
| `CatalogApproval.Registry.ReviewBatch` | capmesh/lifecycle.py:629-701 | reviews the first page of the selection and returns the cursor exactly when more remain |
| `CatalogApproval.Registry.ReviewAllPages` | capmesh/lifecycle.py:717-738 | paging terminates and equals one review of all initially selected URIs in strictly increasing order, each once |
| `CatalogApproval.Registry.ApproveCatalog` | capmesh/lifecycle.py:704-759 | approved if and only if the catalog was approvable; committed whole or rolled back to the committed state |
| `CatalogApproval.ApprovedIff` | capmesh/lifecycle.py:740-746 | nothing failed and nothing is left non-compliant exactly when every selected capability passes and every other one already complies |
| `CatalogApproval.ApprovalTouches` | capmesh/lifecycle.py:651-688 | an approval settles exactly the rows of the tenant that are not built in, still to be approved, unheld and through their gates; every other row, other tenants' above all, is untouched, and the audit names the settled ones |
| `CatalogApproval.ReviewsAreOfQualified` | capmesh/lifecycle.py:574-607 | the new reviews are exactly those of the settled rows, with their tenant, address and content |
| `CatalogApproval.ApprovableExactly` | capmesh/lifecycle.py:740-746 | the catalog is approvable exactly when each of the tenant's own rows qualifies or is approved, verified and published already |
| `CatalogApproval.PageProgress` | capmesh/lifecycle.py:649-700 | after a page the rest of the original selection is exactly what the filter selects above the cursor |
| `CatalogApproval.ReviewedTwice` | capmesh/lifecycle.py:668-688 | reviewing two disjoint lists in turn is reviewing their concatenation |
| `CatalogApproval.PublishedBlocksApproval` | capmesh/lifecycle.py:650-658 | a released capability keeps the catalog from being approved |
| `CatalogApproval.UnpublishedBlocksApproval` | capmesh/lifecycle.py:740-746 | so does a verified one whose lifecycle is not published |
| `ReviewEvidence.RunEvidenced` | capmesh/lifecycle.py:574-607 | over any run of upserts and reviews at fixed URIs, approval, signature, provenance or risk approval implies a stored passing review of the current content |
| `ReviewEvidence.RunEvidencedIff` | capmesh/index.py:1419-1441 | with URI migrations in the run, the same holds in every state if and only if no migration carries a claim on unchanged content to a URI where that content was not reviewed |
| `ReviewEvidence.ApprovalOutlivesReview` | capmesh/index.py:1133-1147 | a reviewed and approved row, found again under another URI, is approved there without a review |
| `ReviewEvidence.RefreshClaims` | capmesh/index.py:647-680 | an upsert adds no claim and keeps one exactly with unchanged content |
| `AccessControl.AccessMonotone` | capmesh/access_control.py:121-200 | tables that grant no more and deny no less, at a later time, allow no more |
| `AccessControl.EditsMonotone` | capmesh/access_control.py:237-276 | no giving edit revokes and no taking edit or passing of time grants |
| `AccessControl.TokenRoleKeepsAccessIff` | capmesh/access_control.py:62-71 | adding a role to the principal keeps an allow exactly when no deny tuple names that role |
| `AccessControl.TokenGroupKeepsAccessIff` | capmesh/access_control.py:62-71 | the same for a group |
| `AccessControl.WiderTokenKeepsAccessIff` | capmesh/access_control.py:121-200 | any wider token keeps an allow exactly when no deny tuple names one of its new subjects |
| `AccessControl.AddedRoleRevokes` | capmesh/access_control.py:62-71 | an instance where the added role revokes |
| `AccessControl.OrgIsolation` | capmesh/access_control.py:295-308 | assignments scoped to one organization never open another organization's internal capabilities |
| `AccessLocality.LocalDecision` | capmesh/access_control.py:121-200 | rows that name another principal, resource, namespace, store or tenant, or that are revoked or expired, can be added or removed without changing any decision |
| `AccessLocality.ShareGrantIff` | capmesh/access_control.py:397-418 | a share grants exactly if it is a live, active share of this very URI in the tenant to a name of the principal, with the right or "manage" |
| `AccessLocality.MemberGrantIff` | capmesh/access_control.py:328-351 | a membership grants exactly if it is of the capability's namespace, not revoked, and its rights or role cover the right |
| `AccessLocality.RoleGrantIff` | capmesh/access_control.py:237-276 | an assignment grants exactly if it is live, in the tenant, names the principal, covers the capability by its scope and has the right |
| `AccessLocality.ScopeIff` | capmesh/access_control.py:295-327 | what each scope type covers |
| `AccessLocality.TupleMatchIff` | capmesh/access_control.py:212-236 | a tuple matches exactly if it names the capability, its namespace, store or tenant, and the principal |
| `AccessLocality.RefsAreNames` | capmesh/access_control.py:62-71 | the subject references are exactly the names of the principal |
| `AccessLocality.ClosedByDefault` | capmesh/access_control.py:121-200 | without a role, share, tuple, membership, manifest, ownership or store grant, a capability that is neither public nor internal is denied |
| `AccessLocality.BlockedIff` | capmesh/access_control.py:134-164 | what overrides all grants: an unfit or switched-off principal, a deny tuple, a withdrawn capability, an unverified promotion in production, a dangerous right without step-up; and nothing else |
| `AccessLocality.InactiveDenied` | capmesh/access_control.py:137-153 | a rejected, recalled, demoted, yanked, disabled, deleted or retired capability is denied whatever the grants |
| `AccessLocality.DenyTupleDenies` | capmesh/access_control.py:164-165 | one deny tuple for any name of the principal is enough |
| `AccessLocality.ShareAllows` | capmesh/access_control.py:170-171 | with no blocker, one such share allows |
| `AccessLocality.RoleAllows` | capmesh/access_control.py:168-169 | so does one such assignment |
| `AccessLocality.TupleAllows` | capmesh/access_control.py:172-173 | so does one grant or owner tuple |
| `AccessLocality.MemberAllows` | capmesh/access_control.py:174-175 | so does one membership |
| `AccessLocality.GlobalRoleAllows` | capmesh/access_control.py:72-78 | token roles count everywhere for administrators, and for auditors to look |
| `AccessLocality.StoreAllows` | capmesh/access_control.py:352-396 | owners of a store may use, share, submit and manage what is in it; a store for everybody opens to its tenant |
| `AccessLocality.VisibleAllows` | capmesh/access_control.py:458-472 | to use a capability it is enough that it is public, or internal outside an organization's store |
| `AccessLocality.ManifestAllows` | capmesh/access_control.py:201-211 | to use or delegate it, that its manifest names the principal or a group, or asks for scopes it has |
| `AccessLocality.OwnerAllows` | capmesh/access_control.py:419-423 | its creator, or its owner when none is recorded, may do all but publish, approve and audit |
| `AccessLocality.UseGrantsOnlyUse` | capmesh/access_control.py:121-211 | visibility and manifest never give a right beyond use and delegation |
| `AccessLocality.RoleMatrix` | capmesh/access_control.py:40-74 | which right comes with which role; only administrators manage or approve |
| `AccessService.CacheHoldsFirstAnswer` | capmesh/access_control.py:277-294 | a cached answer is the table's answer at the first lookup |
| `AccessService.AnswerCurrentIff` | capmesh/access_control.py:277-294 | a lookup answers as the table does exactly when the binding is what it was at the first lookup |
| `AccessService.NegativeAnswerGoesStale` | capmesh/access_control.py:277-294 | a store looked up before its organization exists stays unowned |
| `AccessService.CurrentCacheDecidesByTable` | capmesh/access_control.py:277-308 | with a cache that agrees with the table, decisions are those of the table |
| `AccessService.CachedOrgIsolation` | capmesh/access_control.py:295-308 | organization isolation as the running process enforces it, by the organization its cache names for the store |
| `AccessService.Service.EvaluateAccess` | capmesh/access_control.py:121-200 | whatever the cache holds: allows exactly when no blocker holds and some grant holds in the tables as the process sees them through its cache, names the first blocker, and records one decision when auditing |
| `AccessService.Service.HasRoleGrant` | capmesh/access_control.py:237-276 | the row loop finds exactly the active role grants, organizations being as the cache answers |
| `AccessService.Service.OrgIdForStore` | capmesh/access_control.py:277-294 | answers from the cache, filling it on a miss |
| `Promotion.ApprovalConserves` | capmesh/promotions.py:392-471 | an approval keeps the number of capabilities and URI uniqueness; one row changes address |
| `Promotion.ApprovalCoherent` | capmesh/promotions.py:414-471 | sources and index still point at live rows |
| `Promotion.NothingAtOldAddress` | capmesh/promotions.py:443-471 | no row, source or index entry is left at the old URI |
| `Promotion.GrantsMove` | capmesh/promotions.py:464-471 | all shares and same-tenant tuples move, none is lost, others stay |
| `Promotion.OtherRequestsStay` | capmesh/promotions.py:460-463 | other requests for the capability keep the old URI |
| `PromotionOutcome.DismissalUnapproves` | capmesh/promotions.py:388-480 | a reject, recall, demote or yank always goes through and leaves the capability unapproved with that state, at its address and with its grants; no other row changes |
| `PromotionOutcome.ApprovalPlaces` | capmesh/promotions.py:392-471 | an approval that goes through: approved in the target at the minted address, published unless withdrawn, first address remembered, its request and waiting steps settled, no other row changed |
| `PromotionOutcome.ApprovalRefusedIff` | capmesh/promotions.py:300-392 | an approval is refused exactly when its gates refuse, its target is missing in production, or a row or tuple is at its new address |
| `PromotionOutcome.SameAddressIff` | capmesh/promotions.py:364-370 | two capabilities get one address in a namespace exactly when type, dotted name and version agree |
| `PromotionOutcome.PluginsApartIff` | capmesh/promotions.py:346-370 | without dots in plugin slugs, exactly when all four parts agree |
| `PromotionOutcome.DottedPluginsCollide` | capmesh/manifest.py:93-97 | with dots, two capabilities of different plugins that get one address |
| `Promotion.PromotionDesk.ApproveRequest` | capmesh/promotions.py:334-480 | commits the specified tables, or on a clash leaves request state, steps and capability rows as they were |
| `EmbeddingBreaker.StreakInvariant` | capmesh/index.py:2689-2711 | the counter is the failure streak, and a full streak holds the gate shut for a cooldown |
| `EmbeddingBreaker.RunBounded` | capmesh/index.py:2790-2826 | over every run of calls, n failures without a success span at least (n - threshold) * cooldown |
| `EmbeddingBreaker.HardDeadlineTrips` | capmesh/index.py:2695-2703 | after a hard deadline the next recorded failure is a cooldown later, whatever the count |
| `EmbeddingBreaker.GateOpenIff` | capmesh/index.py:2689-2711 | after any run the gate is open exactly when a cooldown has passed since every hard deadline, and every failure from the threshold on, since the last success |
| `EmbeddingBreaker.OpenBelowThreshold` | capmesh/index.py:2695-2703 | without hard deadlines, fewer failures in a row than the threshold never shut it |
| `EmbeddingBreaker.BreakerCell.EmbedText` | capmesh/index.py:2790-2826 | one call in place equals the specified step and returns a vector exactly on success |
| `GuardPolicy.SignedVerdictMatchesCheck` | capmesh/capguard.py:310-326 | for every result `scan_file` can return the signed verdict is clean exactly when the malware check passes |
| `GuardPolicy.FileVerdict` | capmesh/malware_scan.py:36-53 | the signed verdict of a scanned file: error when unreadable, clean when no signature matches, blocked when any does |
| `GuardPolicy.CleanMeansNoSign` | capmesh/capguard.py:310-326 | for results of any shape, a clean verdict means no error, no serious finding, no serious count and no failed flag, and conversely |
| `GuardPolicy.OtherShapesDisagree` | capmesh/cap_guard.py:433-518 | three other result shapes on which the two disagree |
| `GuardPolicy.JoinIsLeastBound` | capmesh/cap_guard.py:594-714 | the join is the least action at or above every demand |
| `GuardPolicy.RulesComputeJoin` | capmesh/cap_guard.py:641-714 | the ordered rules compute the join, and the second deny branch cannot be reached |
| `GuardPolicy.ActionIff` | capmesh/cap_guard.py:521-714 | read off the evidence: denied exactly when a blocking control is condemned (a scan that failed, a status that says failed, invalid or rejected, a blocked injection scan, an unknown tier), allowed exactly when each is cleared, else held |
| `GuardPolicy.IsolationByTier` | capmesh/cap_guard.py:414-430 | Camber for its tiers and unknown ones, Cire for its own, none for the rest |
| `GuardPolicy.WorseningNeverAllows` | capmesh/cap_guard.py:594-714 | worsening any check or blocking on more never moves toward allow |
| `GuardPolicy.IdleSettings` | capmesh/cap_guard.py:224-285 | three documented settings do not affect the action |
| `GuardPolicy.DefaultAllowIsClean` | capmesh/cap_guard.py:594-714 | an allow under the default policy implies a clean signed verdict, verified signature and provenance, and isolation above the low tier |
| `GuardPolicy.EvaluateCapGuardPolicy` | capmesh/cap_guard.py:594-714 | the evaluation returns the join over the blocking checks, raises exactly on an allowed high-risk capability without isolation, and reports fail-closed exactly when a blocking scan broke off or failed without naming a serious finding |

## Left out

- Search ranking, query terms, synonyms, FTS scoring and vector rows: they rest on text scoring and floating-point embeddings given from outside.
- Vector failure flags: `_mark_vector_failure` writes one metadata key after the upsert; the index text is not affected.
- Promotions and reviews as steps of quarantine runs: the runs start from any coherent tables, approved promotions included, and take ingest, hold, scan, release and reject steps.
- Coverage.NextCoveredIff: the batch names its tenants and brings nothing already rejected, as discovery and placement do; a batch that breaks this is not described.
- A trust anchor that changes between the releases of one run: `trust` is fixed for a run, while single releases are described for every anchor.
- Admission guards: the batch is what they admitted; a row dropped by them is absent from the placed list.
- `normalize_existing_capability_namespaces`, staged rebuilds and database file promotion: one-off maintenance around the same operations.
- Gate bodies, signing, provenance records, tracing, metrics and audit payload text: each gate is an arbitrary result.
- Surrounding white space in identifiers and Unicode case folding: identifiers are compared as stored.
- The recursion limit of `detect_cycles` on very deep graphs and SQLite's lock contention between processes.
- Registry log: multi-process races on the next sequence number; writers run one after the other.
- Version constraints between dependencies, OAuth, SCIM, Entra, metrics, the command line and the dashboard: wire formats and thin wrappers with easy properties.
- One table of capabilities for all modules: access control and promotion keep the columns they read, and only `PromotedCatalog` carries a promotion over to the catalog tables.

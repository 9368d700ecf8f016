# dae-wing: a verified model of its configuration core

dae-wing keeps proxy configuration in a SQLite database, compiles the selected parts into a dae
config, and hot-reloads dae with it. This project models the code that does so and proves what that code
is for. Check it with `dafny verify dfyconfig.toml` (Dafny 4.11).

## What is modelled

**The config compiler** (`NodeNames`, `GroupMembers`, `ConfigCompiler`). The build part of `config.Run`, on
heap objects for the working nodes, with the in-place sort, the in-place merge of group lists and the
unbounded search for a free name. Map iteration is an arbitrary choice at every step. `Compile` succeeds on
exactly the databases that can be built, and then the emitted text means the database: reading a group's
name filter through the emitted `name:link` entries gives exactly the links of its regex-matching
subscription nodes and its own nodes. Regular expressions are a parameter, of any behaviour.

**The hot reload** (`ReloadProtocol`, `ReloadLiveness`, `Daemon`). The event loop of `dae.Run`, the goroutine of
each served control plane, the callers of `config.Run` under `runLock` and the callers of `_errorExit`, as one
step relation over all interleavings. A reload is two steps, the receipt of its message and the exchange of
`c`; while the new plane is being built between them, the others go on. Building may fail at will. `Daemon` has
the loop in its own form, with config objects on the heap and one BPF object handed on, and ties each of
its methods to the step relation. A finding: stop messages are conserved in a run if and only if `c` is not
replaced (dae/run.go:190) before the first goroutine has read it (dae/run.go:87). The usual restart, whose
message is received before that, is answered if the goroutine reads `c` while the new plane is being built
(`EarlyReceiptAnswered`); if `c` is replaced first, the call waits for ever (`EarlySwapStrands`).

**The change detector** (`Store`, `Effects`, `StoreHistory`, `ChangeDetector`, `ModifiedSoundness`,
`Services`).
The database as tables of rows under ids that are never reused, with twenty kinds of mutation. `Effects` says
of each, row by row, what it changes and what it leaves alone. `Services` has the transactions in place,
statement by statement, each proved to have its effect and to be one step of `Store.Apply`.
`ModifiedExactly` says when `Modified` answers no; over all traces of mutations and runs, a "no" means that the
selection, every group version and every group's row, bindings and members are those of the last run, and
with mutations used as documented also what each group draws on, but for the nodes that `updateNode` was
applied to since. `ModifiedSinceRun` is exact about every mutation: given the recorded selection, the answer is
no if and only if none since the run touched anything recorded.

**The whole of a run** (`Preloading`, `ConfigRun`, `Recompile`, `RunAgain`, `Unnoticed`). `ConfigRun.Run` finds the
selected rows, parses, compiles, reloads and records; the compiler's precondition is not assumed but
follows from what every mutation keeps. `RunAgain.UnmodifiedRunsAlike` is what a "no" of `Modified` is worth, over
all traces, with mutations used as documented or not: running again would load an equivalent config if and
only if
- no group has been created since under the name of a preset outbound (`direct`, `block`, `must_rules`) that the
  routing uses (such a group would be emitted), and
- every recorded group still has the links that were loaded. `updateNode` and `tagNode` bump no version;
  `Recompile.NodeEditsUnnoticed` says exactly when one of them changes a group's links (`tagNode` never does), and
  with mutations used as documented all groups have kept their links if and only if the node updates since
  the run cancel out in each (`Recompile.LinksKeptExactly`).

Both conditions are findings: `Modified` notices neither. `Unnoticed.PresetTakenUnnoticed` and
`Unnoticed.NodeEditUnnoticed` are traces from the empty database, with all mutations used as documented, that
break one each.

**Store and loop together** (`RunningTruth`, `ServedConfig`). Transactions of `config.Run` over the reload protocol,
with other commits in between. `StoreTellsTruth`: whenever the loop is up and no such transaction is open, the
call loaded last is the call committed last, if and only if the former was not lost to a failure of the
database after its reload. Then the store tells the truth (what is being served was compiled from what it
records as running) if and only if a call has been committed or it does not say "running". `ServedRunsAlike` adds the change
detector: while `Modified` says no, the config being served is equivalent to what a run would load, exactly
under the two conditions above. Both excluded cases are findings. graphql/mutation.go commits after the reload,
and `LostRunServed` is a run whose config is served while the store speaks of the one before. And a daemon that
is restarted after the selected config was removed says "running" while it serves its initial config
(`RestartUntold`): restoreRunningState then ends with an error and leaves the record as it is.

**Orphans** (`Orphans`). `UpdateById` of a subscription finds the row and fetches before its transaction, and does
not look again. Over all traces, no node ever belongs to a missing subscription if and only if no refresh
commits after its subscription was removed (`OrphansExactly`); `LateRefreshOrphans` is a trace that does.

**Subscription refresh and node import** (`NodeImport`, `SubscriptionRefresh`). Exactly when an import or a refresh
succeeds, and exactly what the node table is afterwards.

**Concurrent helpers and pagination** (`ProbePool`, `LatencyCache`, `LatencyQueries`, `RefreshGap`,
`SchedulerRegistry`, `Cursors`, `NodeConnections`). The bounded probe pool, the refresh check and the scheduler
registry as step relations over all interleavings; the latency cache on the heap, with pointer fields;
cursors down to base64 (sections 3.2 and 4 of RFC 4648) and what a walk along them visits. Findings: a
refresh starts an interval after earlier refreshes, but not after stores by others that come late
(`LateStoreNotSeen`; `StoresApartExactly` says when it does), and cursors of ids above the largest `int` do
not decode (`CursorRoundTrip`).

`Wrappers`, `Sequences`, `Text`, `Database` and `Tables` hold what the others share.

Conventions. A run of a concurrent part is a sequence of states and events; each event is one atomic step, and
memory is sequentially consistent. Loops of the source are loops here; a method's `ensures` ties it to a
function on values, and the lemmas are about that function. In the compiler the suffix loop starts at `.0`,
as the code does; its comment says `.1`.

## Model

| member | source | states |
|---|---|---|
| NodeNames.Norm | graphql/service/config/mutation_utils.go:171-181 | A normalized name has the old length, no colon or quote, and is unchanged where it was safe. |
| NodeNames.NormNodeName | graphql/service/config/mutation_utils.go:171-181 | The loop computes that name. |
| NodeNames.BaseNameMeans | graphql/service/config/mutation_utils.go:195-199 | The base name is the normalized name, behind the subscription's id in decimal and a dot for a node of a subscription. |
| NodeNames.CandidateMeans | graphql/service/config/mutation_utils.go:200-209 | The wanted name comes first, then suffixes that count from 0. |
| NodeNames.CandidateInjective | graphql/service/config/mutation_utils.go:200-209 | The names `base`, `base.0`, `base.1`, ... are all different. |
| NodeNames.Pigeonhole | graphql/service/config/mutation_utils.go:201-209 | If the first k candidates are taken, at least k names are. |
| NodeNames.FreeName | graphql/service/config/mutation_utils.go:200-209 | The unbounded search ends, with the first free candidate, after at most as many failed probes as there are names. |
| NodeNames.TaggedFirstIsSort | graphql/service/config/mutation_utils.go:186-188 | The stable sort keeps the nodes and puts the tagged ones first. |
| NodeNames.TaggedFirstIsStable | graphql/service/config/mutation_utils.go:186-188 | Nodes that both have a tag, or both have none, stay in their order. |
| NodeNames.SortTaggedFirst | graphql/service/config/mutation_utils.go:186-188 | The slice is sorted so in place. |
| NodeNames.Owners | graphql/service/config/mutation_utils.go:189-214 | The map is one-to-one, and a node is missing from it exactly if a later one has its tag. |
| NodeNames.ChooseNames | graphql/service/config/mutation_utils.go:189-211 | The naming loop gives a tagged node its tag and any other the first candidate that no earlier node has. |
| NodeNames.AssignNames | graphql/service/config/mutation_utils.go:212-214 | Whatever the iteration order, each node in the map gets its key as name. |
| NodeNames.UniquefyNodesName | graphql/service/config/mutation_utils.go:183-215 | Sorts in place, then every node that no later one shadows has its chosen name. |
| GroupMembers.MatchedNodes | graphql/service/config/mutation_utils.go:134-152 | Fails exactly on a non-empty pattern that does not compile; else gives the matching nodes in order, all of them without a pattern. |
| GroupMembers.MatchedInOrder | graphql/service/config/mutation_utils.go:146-151 | Each row is kept once and in its place, if there is no pattern or it matches the row's name. |
| GroupMembers.MembersFeed | graphql/service/config/mutation_utils.go:358-391 | A row is collected for a group exactly if the group means it: through a binding that admits it or as a node of its own. |
| GroupMembers.CollectGroup | graphql/service/config/mutation_utils.go:360-391 | One group's turn appends one new node object per collected row, or stops at a bad pattern. |
| GroupMembers.CollectNodes | graphql/service/config/mutation_utils.go:358-391 | Collects all groups' rows in order; fails exactly if some pattern does not compile, naming such a group. |
| GroupMembers.MergedHas | graphql/service/config/mutation_utils.go:156-162 | The merged group list of a link has a group exactly if some node with the link has it. |
| GroupMembers.MergeOne | graphql/service/config/mutation_utils.go:156-162 | One turn keeps: each link leads to the first node with it, holding the groups of all so far. |
| GroupMembers.MergeByLink | graphql/service/config/mutation_utils.go:155-162 | The in-place merge gives that for all nodes. |
| GroupMembers.DeduplicateNodes | graphql/service/config/mutation_utils.go:154-168 | One node per link, the first with it, serving the groups of all nodes with the link, in any order. |
| ConfigCompiler.OutboundMeans | dae/utils.go:35-46 | `must_x` means the outbound `x`, except that `must_rules` is one itself; other names mean themselves. |
| ConfigCompiler.NecessaryOutbounds | dae/utils.go:35-46 | The outbounds are, once each, the fallback and the rules' outbounds without `must_`, but `must_rules` as it is. |
| ConfigCompiler.GroupsNamed | graphql/service/config/mutation_utils.go:324-331 | The query finds exactly the groups with one of the names. |
| ConfigCompiler.UndefinedNames | graphql/service/config/mutation_utils.go:336-357 | The names not found are exactly those that are neither a group nor `direct`, `block` or `must_rules`. |
| ConfigCompiler.MergedServes | graphql/service/config/mutation_utils.go:154-168 | After the merge a node serves a group exactly if its link is one of the group's. |
| ConfigCompiler.MergeNodes | graphql/service/config/mutation_utils.go:392 | No link is lost or invented by the merge. |
| ConfigCompiler.NamesGood | graphql/service/config/mutation_utils.go:183-215 | With unique, valid tags all names are different and contain no colon or quote. |
| ConfigCompiler.PrepareNodes | graphql/service/config/mutation_utils.go:392-393 | Merged and named: links and names unique, each node serving exactly the groups its link belongs to. |
| ConfigCompiler.SplitOfEntry | graphql/service/config/mutation_utils.go:451-454 | An entry `name:link` splits at its first colon into name and link. |
| ConfigCompiler.NodesByGroup | graphql/service/config/mutation_utils.go:394-403 | Each group is mapped to the set of nodes that serve it. |
| ConfigCompiler.FilterNames | graphql/service/config/mutation_utils.go:429-435 | The filter has exactly the names of those nodes. |
| ConfigCompiler.EmitNodes | graphql/service/config/mutation_utils.go:451-454 | One entry `name:link` per node, in order. |
| ConfigCompiler.NoLeak | graphql/service/config/mutation_utils.go:404-454 | A link that a group's filter admits through the node section is a link of that group in the database. |
| ConfigCompiler.NoLoss | graphql/service/config/mutation_utils.go:404-454 | A link of the group in the database is admitted by its filter. |
| ConfigCompiler.AcceptsExactly | graphql/service/config/mutation_utils.go:406-428 | Counting a group's merged nodes is counting its distinct links. |
| ConfigCompiler.EmitGroup | graphql/service/config/mutation_utils.go:405-449 | One group gives its section, or the error for no node or for a fixed group with more than one; the policy has the group's name, and is a call with its params, in order, exactly if it has any. |
| ConfigCompiler.EmitGroups | graphql/service/config/mutation_utils.go:404-450 | Whatever the iteration order, every group gives exactly one section, or the error of one of them. |
| ConfigCompiler.EmittedMeans | graphql/service/config/mutation_utils.go:358-454 | An emitted section stands for its group: its policy with its params and exactly its links. |
| ConfigCompiler.EmitSections | graphql/service/config/mutation_utils.go:394-454 | Group and node sections faithful to the groups, or a genuine error. |
| ConfigCompiler.CompileGroups | graphql/service/config/mutation_utils.go:358-454 | Succeeds exactly if all patterns compile and every group has a link, and one only if it is fixed. |
| ConfigCompiler.Compile | graphql/service/config/mutation_utils.go:321-454 | The build succeeds exactly on buildable databases; the emitted config then means the needed groups; errors are genuine. |
| ConfigCompiler.Covered | graphql/service/config/mutation_utils.go:321-449 | Every needed outbound is a preset or emitted exactly once, nothing else is emitted, and each section has a link, just one if fixed. |
| ReloadProtocol.PlanesInvStep | dae/run.go:149-198 | Every step keeps: the current plane is the newest, built from the stored config and alone open; it alone owns the BPF object, which nobody does while a new plane is being built. |
| ReloadProtocol.ClientsInvStep | graphql/service/config/mutation_utils.go:259-276 | Every step keeps: only the lock holder is between TryLock and Unlock, and a reply is owed exactly to the waiting caller. |
| ReloadLiveness.ServedInvStep | dae/run.go:80-133 | Every step but an early replacement of `c` keeps: the current plane is served exactly if the loop is not reloading, and stop messages are conserved. |
| ReloadLiveness.RunKeeps | dae/run.go:100-200 | The invariants hold in every state of every run. |
| ReloadLiveness.ConservationExactly | dae/run.go:80-133 | The stop messages due are one if reloading plus the absorbed exits, throughout a run, if and only if `c` is not replaced (dae/run.go:190) before the first goroutine has read it (dae/run.go:87). |
| ReloadLiveness.StopIsCurrent | dae/run.go:130-133 | With no exit absorbed, a stop message outside a reload is the current plane's own. |
| ReloadLiveness.AbsorbedExitIsDue | cmd/run.go:43-48 | An absorbed exit leaves a stop message due, and the next nil outside a reload ends the loop. |
| ReloadLiveness.CacheKeepsPreference | dae/run.go:151-155 | A DNS cache traces only through planes with the same IpVersionPrefer. |
| ReloadLiveness.CacheHandedOn | dae/run.go:149-198 | Over all runs: an exchange of the plane builds one of the requested config, or of the running one after a failure; it takes over the DNS cache of the plane before if and only if the requested and the running config prefer the same IP version, also after a failure. |
| ReloadLiveness.ReplyTruthful | dae/run.go:109-129 | A nil error means that the requested config is being served, another error that the previous one is. |
| ReloadLiveness.AnsweredTruthfully | graphql/service/config/mutation_utils.go:456-465 | Over all runs: an answered call was received and then loaded or not; it hears of an error exactly if its config did not load, and its config, or else the one that ran on receipt, is then being served. |
| ReloadLiveness.AnsweredOnce | graphql/service/config/mutation_utils.go:456-465 | No reload message is answered twice in a run. |
| ReloadLiveness.WorkDecreases | dae/run.go:100-200 | Every step that is not the environment's uses up work. |
| ReloadLiveness.SystemStepsBounded | dae/run.go:100-200 | Between two actions of the environment a run takes a bounded number of steps. |
| ReloadLiveness.QuietMeansDone | dae/run.go:100-200 | A live state in which nothing can happen owes no reply, no stop message and no exit. |
| ReloadLiveness.RestedRun | dae/run.go:100-205 | A run at rest has answered every call and obeyed every exit, or its loop ended. |
| ReloadLiveness.EarlySwapStrands | dae/run.go:79-94 | A concrete run in which `c` is replaced early comes to rest with a caller waiting. |
| ReloadLiveness.EarlyReceiptAnswered | dae/run.go:79-94 | A concrete run in which the message is received before the first goroutine reads `c`, and is answered. |
| RunningTruth.WorldInvStep | graphql/service/config/mutation_utils.go:456-496 | Every step of calls, loop and other commits keeps: the loop has the config of the call loaded last, calls load in the order in which they read, and the store speaks of the call committed last. |
| RunningTruth.StoreTellsTruth | graphql/mutation.go:256-267 | Over all runs, with no transaction open: the call loaded last is the one committed last if and only if it was not lost after its reload; then the store tells the truth about the served config if and only if a call has been committed or it does not say "running". Until then the initial config is served. |
| ServedConfig.ServedRunsAlike | graphql/service/general/dae_resolver.go:30-78 | Over all such runs, once a call has been committed and none was lost last: while `Modified` says no, the config being served is equivalent to what a run would load if and only if no new group has a used preset's name and every recorded group has kept its links. |
| ServedConfig.RestartUntold | cmd/run.go:156-212 | A concrete trace and restart after which the store says "running", no config is selected, and the initial config is served. |
| RunningTruth.LostRunServed | graphql/mutation.go:256-267 | A concrete run whose config is served although the store was left as it was. |
| Daemon.PreprocessWanInterfaceAuto | dae/utils.go:79-95 | In place, `auto` becomes the default interfaces and duplicates go; fails exactly if they are needed and cannot be found. |
| Daemon.ExpandInPlace | dae/utils.go:79-95 | Each `auto` is replaced where it stands, and other interfaces stay in order. |
| Daemon.NewControlPlane | dae/run.go:207-242 | Builds from a deep copy: no existing config changes; fails on a subscription, on `auto` without defaults, or in dae. |
| Daemon.Load | dae/run.go:157-183 | The new plane, or after a failure one built from the old config again, or none if neither loads. |
| Daemon.Loop.Start | dae/run.go:72-98 | The first plane is built from the config, with its own BPF object, before the loop starts. |
| Daemon.Loop.OnReload | dae/run.go:134-198 | A reload leaves a valid loop state with the new plane, the same BPF object, the config that loads, and the old plane's DNS cache exactly if the requested and the running config prefer the same IP version; or ends fatally if neither config loads. |
| Daemon.Loop.OnNil | dae/run.go:103-133 | A nil serves the new plane and answers the caller, or closes the plane and ends the loop. |
| NodeImport.ImportNode | graphql/service/node/mutation_utils.go:29-50 | The checks in order, each error exactly under its own condition and with the table as it was; else one new row under the next id with the call's link, tag and subscription and the dialer's name. |
| NodeImport.Import | graphql/service/node/mutation_utils.go:52-77 | One result per argument in order; every successful entry, tagged or not, has such a row of its own, old rows stay and there are no others; stops exactly at a first fatal error if asked to abort. |
| NodeImport.ImportsKeepUnique | graphql/service/node/mutation_utils.go:38-45 | No subscription ever holds two nodes with one link. |
| NodeImport.ImportedSoAll | graphql/service/node/mutation_utils.go:52-77 | After an import of untagged links the subscription has its old links and the valid listed ones; old rows are untouched. |
| NodeImport.ImportExactly | graphql/service/node/mutation_utils.go:52-77 | An entry succeeds if and only if its link is valid, not yet in the subscription and not listed before. |
| SubscriptionRefresh.RefreshCommits | graphql/service/subscription/mutation_utils.go:278-306 | A refresh commits if and only if some fetched link is valid and not the link of a pinned node. |
| SubscriptionRefresh.RefreshedIsGood | graphql/service/subscription/mutation_utils.go:278-306 | Then the links are those of pinned nodes and the valid fetched ones, pinned and foreign nodes keep id and row, new nodes have new ids. |
| SubscriptionRefresh.RefreshAdds | graphql/service/subscription/mutation_utils.go:297-306 | A committed refresh created at least one node. |
| SubscriptionRefresh.RefreshKeepsUnique | graphql/service/subscription/mutation_utils.go:278-306 | A refresh keeps links unique within every subscription. |
| SubscriptionRefresh.Refresh | graphql/service/subscription/mutation_utils.go:269-306 | Delete, import and look for a success; without one the nodes are as before. |
| Effects.MutationEffect | graphql/service/group/mutation_utils.go:99-307 | Each of the twenty mutations, row by row: the rows and columns it sets, the version bumps, and that nothing else changes; a failed one changes nothing. |
| Store.SectionsInvStep | graphql/service/dns/mutation_utils.go:102-129 | Every mutation keeps at most one selected row per kind. |
| Store.GroupsInvStep | graphql/service/group/mutation_utils.go:99-307 | Every mutation keeps: groups know only ids that were given out. |
| Store.SchemaInvStep | common/validator.go:16-29 | Every mutation keeps tags and group names valid and unique. |
| Store.LinksStep | graphql/service/node/mutation_utils.go:38-45 | No mutation, updateNode being used as documented, gives a subscription two nodes with one link. |
| StoreHistory.SinceStep | graphql/service/group/mutation_utils.go:43-46 | No mutation lowers a version, reuses an id or starts a group running; a section that keeps its version keeps its text. |
| StoreHistory.GroupsKeptStep | graphql/service/group/mutation_utils.go:43-46 | A running group that a mutation, documented or not, does not bump keeps its row, bindings and members. |
| StoreHistory.ContentStep | graphql/service/subscription/mutation_utils.go:151-171 | If the mutation is used as documented, it also draws on the same nodes, which keep link and name unless updateNode was applied to them. |
| StoreHistory.HistorySince | graphql/service/node/mutation_utils.go:100-120 | All three across any sequence of mutations. |
| ChangeDetector.IdStringInjective | graphql/service/general/dae_resolver.go:65-74 | Equal sorted and joined hex lists mean equal id sets. |
| ChangeDetector.HexMeans | graphql/service/general/dae_resolver.go:59-77 | An id is listed in hexadecimal. |
| ChangeDetector.EqualSums | graphql/service/general/dae_resolver.go:65-74 | If no version went down, equal sums mean that every version is equal. |
| ChangeDetector.OrderIrrelevant | graphql/service/general/dae_resolver.go:65-76 | The comparison does not depend on the order in which the groups come. |
| ChangeDetector.GroupsMatch | graphql/service/general/dae_resolver.go:65-76 | The loop and the sort compare the two fingerprints. |
| ChangeDetector.Modified | graphql/service/general/dae_resolver.go:30-78 | While running, false exactly on unmodified stores, an error exactly without a selected row of some kind; false when not running. |
| ModifiedSoundness.ModifiedExactly | graphql/service/general/dae_resolver.go:30-78 | `Modified` says no if and only if the recorded rows are selected, some group was recorded, and nothing recorded was removed or bumped. |
| ModifiedSoundness.FingerprintSound | graphql/service/general/dae_resolver.go:59-77 | A no means: same selection, versions and texts, same group set, every single group version the recorded one. |
| ModifiedSoundness.GroupSound | graphql/service/general/dae_resolver.go:59-77 | It also means that every recorded group has its row, bindings and members. |
| ModifiedSoundness.ContentSound | graphql/service/general/dae_resolver.go:59-77 | With documented mutations, also the nodes it draws on, with link and name but for those that updateNode was applied to. |
| ModifiedSoundness.TouchDirties | graphql/service/subscription/mutation_utils.go:326-378 | After any mutation something recorded differs if and only if it did before or the mutation touched it; removing a subscription also touches the running groups that hold its nodes. |
| ModifiedSoundness.ModifiedSinceRun | graphql/service/general/dae_resolver.go:30-78 | After a run and any mutations, `Modified` says no if and only if the recorded rows are selected, some group was recorded, and no mutation since touched anything recorded. |
| ModifiedSoundness.OtherGroupsSilent | graphql/service/group/mutation_utils.go:43-46 | Changes of groups that are not running never change the answer. |
| ModifiedSoundness.NewGroupSilent | graphql/service/group/mutation_utils.go:21-41 | Creating a group never changes the answer. |
| Recompile.NodeEditsUnnoticed | graphql/service/node/mutation_utils.go:79-98 | updateNode and tagNode never change the answer; they change a group's links exactly if a link that the node wins or loses for it is no other node's, and tagNode never does. |
| Unnoticed.NodeEditUnnoticed | graphql/service/node/mutation_utils.go:79-98 | A trace from the empty database with documented mutations: after a run a node gets another link, `Modified` says no, no group has a preset's name, and a run would load a config that is not equivalent. |
| ModifiedSoundness.UnmodifiedMeansSame | graphql/service/config/mutation_utils.go:467-496 | Over all traces: a no in a running state leads back to the last run, with the same selection, versions, group rows, bindings and members; if mutations were used as documented, with the same nodes to draw on, their links and names but for updateNode. |
| ModifiedSoundness.RunningRefsPresent | graphql/service/general/dae_resolver.go:59-61 | The recorded ids that `Modified` dereferences are never nil while running. |
| ModifiedSoundness.TraceSchema | db/group.go:14 | Over all traces: tags and group names are valid and unique. |
| ModifiedSoundness.TraceLinks | graphql/service/node/mutation_utils.go:38-45 | Over all traces: no subscription holds two nodes with one link. |
| Preloading.TableWellFormed | graphql/service/config/mutation_utils.go:324-331 | The rows that the query preloads from a store that keeps to the schema meet what the compiler needs. |
| ConfigRun.RoutingOfTexts | graphql/service/config/mutation_utils.go:317-320 | The selected texts are parsed each in its own role. |
| ConfigRun.SelectedIds | graphql/service/config/mutation_utils.go:291-316 | The three selected rows, or the first kind that has none. |
| ConfigRun.Build | graphql/service/config/mutation_utils.go:317-454 | The selected texts, parsed and compiled: sections and node entries faithful to the needed groups, for exactly the recorded ids; or an error with its cause in the store. |
| ConfigRun.Run | graphql/service/config/mutation_utils.go:261-499 | A run changes the store only if it succeeds, then records exactly what the loaded config was compiled from, sections and node entries alike; each error has its cause. |
| ConfigRun.ShouldReload | cmd/run.go:190-212 | No on a store that is not running, an error exactly if it is and no config is selected. |
| ConfigRun.RestoreRunningState | cmd/run.go:156-188 | After start-up the store says "running" exactly if the reload succeeded, or if it said so before and no config is selected: then nothing is loaded, and it keeps saying so. |
| ConfigRun.RunnableNotRefused | graphql/service/config/mutation_utils.go:291-454 | On a store that can be run no error before the reload is justified. |
| RunAgain.BuildsAgain | graphql/service/config/mutation_utils.go:291-454 | If no version has changed, no new group has a used preset's name and every recorded group has kept its links, a run would not fail before the reload. |
| RunAgain.EquivalentExactly | graphql/service/config/mutation_utils.go:336-353 | If no version has changed, a faithful compilation is equivalent to the loaded config if and only if both of the other conditions hold. |
| RunAgain.UnmodifiedRunsAlike | graphql/service/general/dae_resolver.go:30-78 | Over all traces both hold while `Modified` says no; with mutations used as documented the links are kept if and only if the node updates since the run cancel out in every recorded group. |
| Unnoticed.PresetTakenUnnoticed | graphql/service/config/mutation_utils.go:336-353 | A trace from the empty database: after a run a group takes a preset's name, `Modified` says no, and a run would load a config that is not equivalent. |
| Recompile.PresentedLinks | graphql/service/config/mutation_utils.go:358-391 | The row that the compiler gets for a group has exactly the links of its members and of the nodes that its bindings admit in the store. |
| Recompile.SameContentLinks | graphql/service/config/mutation_utils.go:358-391 | A group with the same content has the same links if and only if every link that edited nodes have won or lost for it is also some other node's. |
| Recompile.LinksKeptExactly | graphql/service/node/mutation_utils.go:79-98 | The same for all recorded groups; without an edited node all links are kept. |
| Services.WingDb.Select | graphql/service/config/mutation_utils.go:217-244 | With such a row it alone is selected, texts and versions staying as they are; without one everything is as it was. |
| Services.WingDb.UpdateOne | graphql/service/dns/mutation_utils.go:42-77 | New text and bumped version, the selection as it was, or nothing if the row is missing or the grammar check fails. |
| Services.WingDb.AutoUpdateVersionById | graphql/service/group/mutation_utils.go:43-46 | The version of an existing group goes up by one. |
| Services.WingDb.BindSubscriptions | graphql/service/group/mutation_utils.go:134-178 | Bindings are added or get the new pattern, the others stay, and the version is bumped. |
| Services.WingDb.UnbindSubscriptions | graphql/service/group/mutation_utils.go:180-206 | Bindings are removed, then the version is bumped. |
| Services.WingDb.AppendNodes | graphql/service/group/mutation_utils.go:208-239 | Members are added, then the version is bumped. |
| Services.WingDb.DeleteNodes | graphql/service/group/mutation_utils.go:241-272 | Members are removed, then the version is bumped. |
| Services.WingDb.ReplacePolicy | graphql/service/group/mutation_utils.go:274-307 | Policy, params and version change together, or nothing for a missing group. |
| Services.WingDb.DropGroup | graphql/service/group/mutation_utils.go:99-132 | The group is gone, and its version update finds no row. |
| Services.WingDb.AutoUpdateVersionByNodes | graphql/service/node/mutation_utils.go:100-120 | While running, exactly the running groups with one of the nodes as member are bumped. |
| Services.WingDb.AutoUpdateVersionBySubs | graphql/service/subscription/mutation_utils.go:151-171 | While running, exactly the running groups bound to one of the subscriptions are bumped. |
| Services.WingDb.DropNodes | graphql/service/node/mutation_utils.go:122-150 | Bump first, then delete; the answer is the number of rows. |
| Services.WingDb.DropSubscriptions | graphql/service/subscription/mutation_utils.go:326-378 | Bumps for the nodes and the bindings, then nodes, bindings and rows go; the answer is the number of rows. |
| Services.WingDb.CommitRefresh | graphql/service/subscription/mutation_utils.go:269-324 | The transaction, on whatever the store then is: refresh and bump, or the store as it was. |
| Services.WingDb.UpdateById | graphql/service/subscription/mutation_utils.go:261-324 | Undisturbed, it refreshes exactly if the row exists, the fetch succeeds and a new valid link came; else the store is as it was. |
| Orphans.OrphansStep | graphql/service/subscription/mutation_utils.go:261-378 | Of all mutations only a refresh that commits without its row leaves a node of a missing subscription. |
| Orphans.OrphansExactly | graphql/service/subscription/mutation_utils.go:261-324 | Over all traces there is never such a node if and only if there is no such refresh. |
| Orphans.LateRefreshOrphans | graphql/service/subscription/mutation_utils.go:261-324 | A trace: import, removal after the lookup, late commit, and a node of a missing subscription. |
| Services.WingDb.UpdateLink | graphql/service/subscription/mutation_utils.go:397-433 | New link and bump, or nothing for a missing row. |
| Services.WingDb.CreateSubscription | graphql/service/subscription/mutation_utils.go:98-117 | A new row, except exactly with an invalid tag or one in use. |
| Services.WingDb.ImportLinks | graphql/service/subscription/mutation_utils.go:97-149 | A new subscription with its nodes, rolled back exactly if its tag is refused, no node could be imported, or an abort came. |
| Services.WingDb.Record | graphql/service/config/mutation_utils.go:467-496 | The loop, the sort and the updates record the selection, the version sum, the id list and the running groups; nothing else changes. |
| ProbePool.PoolInvStep | graphql/service/node/latency_mutation_utils.go:40-60 | Every step keeps: tokens are the goroutines between send and receive, at most 8, and the counter is the unfinished ones; one step less is left. |
| ProbePool.ProbesBounded | graphql/service/node/latency_mutation_utils.go:42-55 | At most 8 probes are in progress in any state of any run. |
| ProbePool.SomeStepEnabled | graphql/service/node/latency_mutation_utils.go:45-58 | No deadlock: until the call returns some step can be taken. |
| ProbePool.RunsEnd | graphql/service/node/latency_mutation_utils.go:40-60 | A run over n nodes has at most 5n + 1 steps, and cannot go on exactly if the call has returned, after just so many. |
| ProbePool.ReturnedComplete | graphql/service/node/latency_mutation_utils.go:41-59 | On return `results[i]` is the outcome of the one probe of node i, for all i. |
| LatencyCache.Clone | graphql/service/node/latency_cache.go:28-43 | The same reading in entirely new memory. |
| LatencyCache.Cache.StoreOne | graphql/service/node/latency_cache.go:50-55 | A clone is stored under the node id. |
| LatencyCache.StoredExactly | graphql/service/node/latency_cache.go:45-56 | After storing a list, a node has its last reading in it, or what it had. |
| LatencyCache.Cache.StoreAll | graphql/service/node/latency_cache.go:45-56 | All readings are stored in order, nils skipped; the cache shares no memory with anything ever passed in or returned. |
| LatencyCache.Cache.Snapshot | graphql/service/node/latency_cache.go:58-67 | The contents in new memory, none of it the cache's. |
| LatencyQueries.CloneSnapshots | graphql/service/node/latency_cache.go:111-129 | Usable snapshots become readings by node id in new memory; a later snapshot of a node wins. |
| LatencyQueries.LoadedFrom | graphql/service/node/latency_cache.go:111-129 | Every runtime reading says what some measured snapshot of the node says. |
| LatencyQueries.RuntimeExactly | graphql/service/node/latency_cache.go:111-129 | A node has one exactly if some measured snapshot leads to it, and it is the last such snapshot's. |
| LatencyQueries.LoadRuntime | graphql/service/node/latency_cache.go:75-133 | What the control plane knows is returned and stored, the update time set exactly if some snapshot has a link. |
| LatencyQueries.AnswersInOrder | graphql/service/node/latency_cache.go:225-230 | Answers are the readings of the nodes that have one, in node order. |
| LatencyQueries.QueryLatencies | graphql/service/node/latency_cache.go:208-233 | Answers follow the nodes, with the runtime reading where there is one and the cached one else, all in new memory; a node without a measured snapshot keeps its cached reading. |
| LatencyQueries.CallerWritesCell | graphql/service/node/latency_cache.go:28-67 | Writing into what a field of an exposed resolver points to leaves the cache as it is. |
| LatencyQueries.CallerWritesResolver | graphql/service/node/latency_cache.go:28-67 | Writing the fields of an exposed resolver leaves the cache as it is. |
| RefreshGap.GapInvStep | graphql/service/node/latency_cache.go:174-194 | Every step keeps: only the lock holder is inside, and the time it read there is not before the last refresh. |
| RefreshGap.StartsExactly | graphql/service/node/latency_cache.go:174-194 | A refresh begins only under the lock, and exactly if the update time read there is none or an interval old. |
| RefreshGap.RefreshesApart | graphql/service/node/latency_cache.go:174-194 | A refresh starts at least one interval, as its caller read it, after every earlier one stored its results. |
| RefreshGap.OneRefresh | graphql/service/node/latency_cache.go:185-193 | Refreshes do not overlap. |
| RefreshGap.StoresSeenApart | graphql/service/node/latency_cache.go:188-193 | The gap also holds after every other store that came before the second look at the update time. |
| RefreshGap.StoresApartExactly | graphql/service/node/latency_cache.go:188-193 | The gap holds after all stores, whoever made them and when, if and only if the update time would still let the refresh start if looked at once more. |
| RefreshGap.LateStoreNotSeen | graphql/service/node/latency_cache.go:188-193 | A concrete run in which a later store does not stop the refresh. |
| SchedulerRegistry.RegistryInvStep | graphql/service/subscription/mutation_utils.go:173-246 | Every step keeps the registry in order, also halfway through the work of the lock holder. |
| SchedulerRegistry.CacheIsLive | graphql/service/subscription/mutation_utils.go:173-246 | Whenever the lock is free the cache holds exactly the live schedulers. |
| SchedulerRegistry.OneLivePerSubscription | graphql/service/subscription/mutation_utils.go:199-216 | Then no subscription has two live schedulers. |
| SchedulerRegistry.AddedIsLive | graphql/service/subscription/mutation_utils.go:199-235 | When an addition with a good cron expression gives the lock back, the subscription has a live scheduler. |
| SchedulerRegistry.RemovedIsDead | graphql/service/subscription/mutation_utils.go:237-246 | When a removal is done no scheduler of the subscription is live. |
| Cursors.DecodeEncode | common/utils.go:30-46 | Unpadded base64 decodes what it encodes, for every byte string. |
| Cursors.CursorText | common/utils.go:30-35 | A cursor is the encoding of "cursor" and the id in decimal. |
| Cursors.CursorRoundTrip | common/utils.go:30-55 | A cursor decodes to its id exactly up to the largest int, and to an error above it. |
| Cursors.CursorInjective | common/utils.go:30-35 | Different ids have different cursors. |
| Cursors.EveryIdHasACursor | common/utils.go:45-55 | Every id is decoded from some cursor, large ones from a negative number. |
| Cursors.DecodeCursorBatch | common/utils.go:57-66 | All ids in order, or an error exactly if one cursor is bad. |
| NodeConnections.NewConnection | graphql/service/node/connection_resolver.go:23-70 | The models are the rows with the given id, of the given subscription or of none, and above the cursor: all of them, or the first so many by id; the base query finds the same rows without the cursor; an error exactly if a given cursor does not decode. |
| NodeConnections.BaseExactly | graphql/service/node/connection_resolver.go:38-49 | The base query finds exactly the rows with the id and the subscription, or with none. |
| NodeConnections.Edges | graphql/service/node/connection_resolver.go:79-87 | The edges are the models, in order. |
| NodeConnections.GoesOnIff | graphql/service/node/connection_resolver.go:88-107 | There is a next page exactly if the base query has rows behind this one. |
| NodeConnections.PageInfoMeans | graphql/service/node/connection_resolver.go:88-107 | Start and end cursor lead to the first and the last row, and there is a next page exactly if a matching row lies behind the last. |
| NodeConnections.WalkVisitsAll | graphql/service/node/connection_resolver.go:23-107 | A cursor walk visits all matching nodes once and in order, in exactly max(1, n/k rounded up) requests. |
| NodeConnections.WalkCountsTotal | graphql/service/node/connection_resolver.go:72-78 | TotalCount is the number of edges of an ended walk exactly while it fits into an int32. |
| NodeConnections.WalkGoesOn | graphql/service/node/connection_resolver.go:88-107 | A page that announces a next one leads to it. |

## Left out

- Network fetching, HTTP, JWT, passwords, sudo, logging and web rendering: library calls without an algorithm of the repository's own; fetched links are a parameter.
- dae-core (parser and marshaller, control planes, dialers, eBPF, probes): parameters that may fail or give any outcome. That `Serve` signals readiness is taken for granted.
- Library functions (regexp, sort, Deduplicate, base64, strconv): regexp is any total behaviour, the others are written out by what they do.
- GORM and SQL text: a table is a map of rows, a transaction a snapshot with commit or restore. SQLite's serializable transactions are taken as atomic. Failures of the database itself are modelled only in `RunningTruth`, where a call of `config.Run` may be lost at will after its reload, and must be if another commit came after it read.
- GORM's treatment of the id 0, where a condition on a zero field disappears: ids start at 1 here.
- The trimming and the check of a binding's pattern before it is stored: the pattern is stored as given here.
- Group `Rename`: whether it bumps the version depends on GORM's `Statement.Changed()`, which is not part of this model.
- Rows that GORM's association upserts create for unknown ids, and bindings to ids that do not exist: `Store.Allowed` has groups given only rows that exist.
- Referential integrity after deletions: the code never switches SQLite's foreign key checks on, so rows of `group_nodes` may outlive their node here, and nodes their subscription.
- Overflow of version counters and of their sum: versions are natural numbers.
- Names that are not valid UTF-8, which the conversion to runes would change: a name is a sequence of characters.
- The api-only loop, which answers every message with nil and keeps no state.
- The Go memory model: the unsynchronized reads of `c` and `listener` are modelled as atomic steps in any order, with the early read of `c` as an event of its own.
- Services.WingDb.DropSubscriptions: the schedulers, which `Remove` stops between its last statement and the commit, are in `SchedulerRegistry` and not in this contract.
- The compiler inside `RunningTruth` is a parameter, a relation between store, record and config; `ServedConfig` takes it to be that of `ConfigRun.RunOf`. A dry run's config is one fixed empty config.
- Interleavings inside `Daemon`: there a reload is received and loaded without a step of others in between; `ReloadProtocol` has them.
- Single-statement mutations (create and remove a section, create a group, update and tag a node, import without a subscription) are steps of `Store.Apply` only; `Services` has the transactions.
- Changing the tag of a subscription, and names and renames of configs, dns and routings: nothing modelled depends on them.
- Update in place of the node table during an import: `NodeImport` takes the table in and gives it out as a value; `Services` assigns it and rolls it back.
- The order in which SQLite scans: the node query has no order clause; `NodeConnections.Scan` takes it to be that of the ids, which fit into signed 64 bits.
- The locks around the latency cache, in `LatencyCache` and `LatencyQueries`; the refresh that precedes a query's answers is in `RefreshGap` and `ProbePool`.
- Latency probes on request and queries also store into the cache without a check; in `RefreshGap` they are stores by others, not refreshes.
- "A scheduler exists exactly if cron is enabled": the code does not keep it; `SchedulerRegistry` is about the registry alone.
- GraphQL schema and getters, code generators, JSON storage, stripping of routing and dns texts: no property of their own.

# Verified model of the WBA knowledge graph's stateful core

These Dafny files model the parts of the program that keep state across calls, threads
and processes, and prove what those parts promise. Databases, the message broker, the
search engine, disks and clocks are small abstract states; where they can fail, answer
differently or be interleaved, the model lets them.

| file | models |
|---|---|
| `PropertyGraph.dfy` | the graph database: MERGE, DELETE, the unique email, `merge_relationship` and its reverse edges |
| `PersonMerge.dfy` | `rehome_person`, folding one Person into another |
| `SnapshotReplace.dfy`, `SnapshotMeaning.dfy` | replacing the comment and reaction edges of a page |
| `PersonCache.dfy`, `PersonCacheMeaning.dfy` | the session-level Person cache, and what each call does in its caller's terms |
| `PersonCacheInvariants.dfy`, `PersonComponents.dfy`, `PersonAccounts.dfy` | its invariants over all runs, the union-find it amounts to, and Jira and Confluence without emails |
| `ServiceToken.dfy`, `ServiceTokenCalls.dfy` | the service-token cache, one field access at a time, and whole calls |
| `SchedulerLease.dfy` | leader election by a timed row, and the due check |
| `CatalogCache.dfy`, `CatalogOverlay.dfy`, `CatalogContents.dfy` | the query catalog: its fingerprint-guarded cache, its overlay of user files, and what a load makes of the files |
| `TopicRouting.dfy`, `RedriveDlq.dfy`, `SignalPipeline.dfy` | exchange topology, redrive, and the journey of a signal between them |
| `ActivityWriter.dfy`, `ActivityTables.dfy` | the batching timeline writer, its shutdown, and its tables |
| `PersonNetworkUrl.dfy`, `PersonNetworkText.dfy` | the link contract, a printer and a parser, and its texts character by character |
| `GraphTheme.dfy`, `GraphThemeTokens.dfy` | theme overrides, frozen snapshots, and the palette behind them |
| `ReconcileEs.dfy` | making search indexes agree with the graph |
| `Options.dfy`, `PyText.dfy` | shared types and text helpers |

Operations that the program carries out step by step are methods and classes, each
proved against a function of its inputs and the old state; what the program promises is
then proved about those functions, mostly over all runs. Where threads, processes or
crashes interleave, the code is a state machine whose steps are single reads, writes or
awaits. `x := *` stands for a choice of the environment, such as a failing statement.

## Where code and documentation part

The model follows the code. These are the differences it brings out, each with a lemma:

* `load_catalog` says a cache entry is invalidated by its fingerprint. It is not when a
  file comes back to an earlier state with a load running across the change: a file
  created and deleted again, or restored with its old time and size
  (`CatalogCache.SafeExactlyWhenUnbroken`).
* The scheduler says a dead leader's lease is picked up within one tick. It can take
  up to three, and always takes more than two (`SchedulerLease.TakeoverExactly`,
  `SchedulerLease.TakeoverCanTakeThreeTicks`).
* A dry run of the redrive script is said to leave messages alone, but it rejects those
  without a key that it meets; without a limit it does not end once a message has a key
  (`RedriveDlq.DryRunRemoves`, `RedriveDlq.UnlimitedDryRunEnds`).
* The redrive script falls back to the key a dead letter carries, which reaches no
  queue (`SignalPipeline.RedriveReaches`).
* A cancel within the inactivity flush loses the rest of the batch
  (`ActivityWriter.LossExactly`, `ActivityWriter.CancelledFlushLoses`).
* REPORTS_TO writes MANAGES as its reverse without the MANAGED_BY that MANAGES calls for
  (`PropertyGraph.MergeRelationshipKeepsPartners`).
* The unlocked backoff check can report a failure that never was
  (`ServiceToken.UnlockedBackoffExactly` says when).
* `search_with_person` is said to preserve every other parameter in order. It does so for
  the values of each key and for the keys, but gathers repeated keys, so the order of all
  parameters is kept only if they stood together before (`PersonNetworkUrl.OrderIsKept`).

## Model

| member | source | states |
|---|---|---|
| `PropertyGraph.RelationshipWrites` | src/connectors/neo4j_db/models.py:1813-1842 | one MERGE for the edge, and exactly for a directional type a second one, of the reverse type between the same ends the other way round |
| `PropertyGraph.MergeEdgeTriples` | src/connectors/neo4j_db/models.py:1813-1826 | a MERGE adds its triple and loses none, whatever properties its pattern carries |
| `PropertyGraph.MergeEdgeFrame` | src/connectors/neo4j_db/models.py:1813-1826 | edges of other triples keep their identity and their properties |
| `PropertyGraph.ReverseTypes` | src/connectors/neo4j_db/models.py:884-936 | MANAGES alone is both a directional type and the reverse of one |
| `PropertyGraph.ReverseOfTypes` | src/connectors/neo4j_db/models.py:884-915 | the table of directional types, read from the reverse types: which edges each of them mirrors |
| `PropertyGraph.ReverseOfMoreTypes` | src/connectors/neo4j_db/models.py:912-936 | the rest of that table |
| `PropertyGraph.NoOtherReverse` | src/connectors/neo4j_db/models.py:884-936 | no other type is a reverse |
| `PropertyGraph.RelationshipTriples` | src/connectors/neo4j_db/models.py:1791-1842 | `merge_relationship` adds the edge and its partner, and nothing else |
| `PropertyGraph.RelationshipKeepsProperties` | src/connectors/neo4j_db/models.py:1806-1842 | the edge, and for a directional type its partner, end up with every property of the relationship but for the display flag |
| `PropertyGraph.FreshRelationship` | src/connectors/neo4j_db/models.py:1813-1842 | an edge that was not there before carries exactly the given properties and the display flag asked for; a new reverse edge is never displayed |
| `PropertyGraph.MergeRelationshipKeepsPartners` | src/connectors/neo4j_db/models.py:884-889 | every directional edge but MANAGES keeps its reverse edge; with MANAGES counted, exactly when no REPORTS_TO edge without a MANAGED_BY counterpart is written |
| `PropertyGraph.Session.MergeRelationship` | src/connectors/neo4j_db/models.py:1791-1842 | the statements of `merge_relationship` take effect up to the first that fails, and no further |
| `PersonMerge.MoveRows` | src/connectors/commons/person_merge.py:42-72 | one row loop writes each row on the canonical Person in turn and stops at the first failure |
| `PersonMerge.RehomePerson` | src/connectors/commons/person_merge.py:12-78 | the fold is its plan, outgoing rows then incoming rows then the delete, up to the first failure |
| `PersonMerge.RehomeConservesEdges` | src/connectors/commons/person_merge.py:23-78 | the edges afterwards are the edges away from the stale node and the stale node's edges renamed with their partners; only its self-loops are lost |
| `PersonMerge.RehomeCarriesProperties` | src/connectors/commons/person_merge.py:42-72 | for every edge of the stale node but its self-loops there is afterwards an edge with the stale end renamed and all its properties, the display flag apart, and for a directional type so has its partner |
| `PersonMerge.RehomeInventsNothing` | src/connectors/commons/person_merge.py:42-72 | every edge after a fold was there before with the same properties, or has exactly those of an edge of the stale node that it takes the place of |
| `PersonMerge.MoveStatement` | src/connectors/commons/person_merge.py:46-72 | each row is sent as one edge of its own type and properties, the stale end replaced, and displayed |
| `PersonMerge.RehomeKeepsPartners` | src/connectors/commons/person_merge.py:42-78 | pairing of directional edges survives a fold; if all edges were paired the fold is a plain renaming |
| `PersonMerge.RehomeFrame` | src/connectors/commons/person_merge.py:23-78 | whatever part of a fold took effect: only the stale node and its email go, once everything got through, and edges elsewhere are untouched |
| `SnapshotReplace.GroupAll` | src/connectors/neo4j_db/models.py:1869-1872 | every entry lands in the group of its commenter, label and type, in order |
| `SnapshotReplace.TimeBounds` | src/connectors/neo4j_db/models.py:1890-1899 | first and last are the minimum and the maximum of the usable timestamps, absent when there is none |
| `SnapshotReplace.ReplaceSnapshot` | src/connectors/neo4j_db/models.py:1845-1935 | afterwards there is exactly one edge and one reverse edge per group, with its count and bounds, and nothing else of the types present at the page; out of scope nothing changes, even when a statement fails; an empty snapshot changes nothing |
| `SnapshotReplace.SnapshotOverwrites` | src/connectors/neo4j_db/models.py:1851-1863 | a later snapshot of at least the same types leaves no trace of the earlier one; with the same entries this is idempotence |
| `SnapshotReplace.SnapshotOrderIrrelevant` | src/connectors/neo4j_db/models.py:1869-1899 | the outcome does not depend on the order of the entries |
| `SnapshotReplace.CountsAddUp` | src/connectors/neo4j_db/models.py:1897-1897 | the counts of the groups sum to the number of entries |
| `SnapshotReplace.SnapshotKeepsPartners` | src/connectors/neo4j_db/models.py:1874-1935 | a snapshot keeps every directional edge but MANAGES paired |
| `SnapshotMeaning.EntriesAreSummedUp` | src/connectors/neo4j_db/models.py:1887-1935 | for every entry there is exactly one edge to the page and one back, COMMENTED_BY or REACTED_BY, with the number of entries of that commenter and type, their earliest and latest time if any has one, the display flag, and nothing else |
| `SnapshotMeaning.SnapshotExactly` | src/connectors/neo4j_db/models.py:1874-1935 | edges of the types present at the page, either way, are gone but for those of the entries; every other edge is untouched |
| `PersonCache.Rewrite` | src/connectors/commons/person_cache.py:287-295 | an index after the rewrite loop: the folded id replaced, every other entry as it was |
| `PersonCache.PersonCache.LookupByEmail` | src/connectors/commons/person_cache.py:272-278 | a Person carrying the email, or none exactly when nobody does |
| `PersonCache.PersonCache.LookupByAtlassianAccount` | src/connectors/commons/person_cache.py:221-251 | a Person mapped from the account's identity mappings, else one with the account's own id, else none |
| `PersonCache.PersonCache.TryMergeRicherPerson` | src/connectors/commons/person_cache.py:308-342 | the merge takes effect or is swallowed |
| `PersonCache.PersonCache.RewriteIndexes` | src/connectors/commons/person_cache.py:287-303 | all indexes, the flushed marks and the queue name the owner instead of the folded Person |
| `PersonCache.PersonCache.RerouteToEmailOwner` | src/connectors/commons/person_cache.py:253-306 | the whole state after a reroute, a missing owner, or a fold that broke off at any statement |
| `PersonCache.PersonCache.GetOrCreatePerson` | src/connectors/commons/person_cache.py:51-219 | the graph, all indexes and the outcome after a call, branch by branch, for every answer the database can give and every failing statement |
| `PersonCacheMeaning.RefusedExactly` | src/connectors/commons/person_cache.py:91-92 | a call is refused, and changes nothing, exactly without a provider or an external id |
| `PersonCacheMeaning.EmptyIsAbsent` | src/connectors/commons/person_cache.py:94-97 | an empty email or account is no email or account |
| `PersonCacheMeaning.NewKeySettlesInOrder` | src/connectors/commons/person_cache.py:118-219 | which Person a new key settles on: the cached or stored owner of its email, then for Jira and Confluence the cached or stored Person of its account, then its own provider-scoped id |
| `PersonCacheMeaning.NewKeyIndexes` | src/connectors/commons/person_cache.py:94-219 | what a new key leaves in the cache, whole: the key, the email, and the account given or, for Jira and Confluence alone, the external id name the returned Person; nothing else changes |
| `PersonCacheMeaning.KnownKeyIndexes` | src/connectors/commons/person_cache.py:99-116 | a known key changes at most its email's entry, unless the email has another owner |
| `PersonCacheMeaning.CallWrites` | src/connectors/commons/person_cache.py:99-219 | a call that does not fold writes the Person it returns, with its email, if the statement gets through and nobody else carries the email, and otherwise nothing |
| `PersonCacheMeaning.RaisedExactly` | src/connectors/commons/person_cache.py:134-219 | a call that raises changes nothing; its key was new, and its statement failed or its email was taken |
| `PersonCacheMeaning.FoldMovesEverything` | src/connectors/commons/person_cache.py:287-306 | after a fold every index, the queue and the marks are as before with the folded Person replaced by the owner |
| `PersonCacheMeaning.AccountLookupMeaning` | src/connectors/commons/person_cache.py:221-251 | the account lookup: a Person that an identity mapping of the account points to, else one with the account's own Jira or Confluence id, else none |
| `PersonCache.PersonCache.QueueIdentityMapping` | src/connectors/commons/person_cache.py:344-391 | a mapping is queued unless its id is queued or its Person is flushed |
| `PersonCache.PersonCache.FlushIdentityMappings` | src/connectors/commons/person_cache.py:393-411 | the writes of a flush up to a failure; Persons of whole mappings are marked, and the queue is emptied only at the end |
| `PersonCacheMeaning.QueuedExactly` | src/connectors/commons/person_cache.py:366-391 | a mapping is queued once, and not for a Person already flushed |
| `PersonCacheMeaning.FlushMarks` | src/connectors/commons/person_cache.py:393-411 | a flush that gets through empties the queue and marks its Persons; one that fails keeps the queue |
| `PersonCacheMeaning.MappingStatements` | src/connectors/commons/person_cache.py:405-408 | a mapping is flushed as its node and a displayed MAPS_TO edge to its Person |
| `PersonCacheInvariants.FlushCreatesNoPerson` | src/connectors/commons/person_cache.py:393-411 | a flush, complete or not, creates identity mappings only, never a Person |
| `PersonCacheInvariants.StepKeepsLive` | src/connectors/commons/person_cache.py:51-411 | every id in the three indexes, the queue and the flushed marks still names an existing Person after any call, queueing or flush, failing or not |
| `PersonCacheInvariants.RunKeepsLive` | src/connectors/commons/person_cache.py:51-411 | the same over every run |
| `PersonCacheInvariants.FoldLeavesNoTrace` | src/connectors/commons/person_cache.py:282-306 | after a fold nothing refers to the folded Person and the call returns the owner |
| `PersonCacheInvariants.CallAgrees` | src/connectors/commons/person_cache.py:51-219 | a call keeps emails with one owner, is not turned away by the unique email constraint, and unless it folds leaves the email on the Person returned |
| `PersonCacheInvariants.RunKeepsEmailsAgree` | src/connectors/commons/person_cache.py:51-411 | over every run whose folds get through: a Person carrying a cached email is the one the cache names, and a call raises only when its statement itself fails |
| `PersonCacheInvariants.CallSettles` | src/connectors/commons/person_cache.py:99-219 | a call leaves its provider key and its email on the Person it returns |
| `PersonCacheInvariants.CallSettlesAccount` | src/connectors/commons/person_cache.py:109-219 | a call with a new key leaves the Atlassian account it knows of on the Person it returns |
| `PersonCacheInvariants.NewMeansCreated` | src/connectors/commons/person_cache.py:88-91 | a call reports a new Person exactly when the one it returns did not exist before |
| `PersonCacheInvariants.FlushAddsMappings` | src/connectors/commons/person_cache.py:393-411 | a flush that gets through maps every queued identity to the Person the queue names for it, and adds no other edge |
| `PersonCacheInvariants.StepMovesTogether` | src/connectors/commons/person_cache.py:253-306 | an event moves all keys and emails of a Person at once or none |
| `PersonCacheInvariants.RunKeepsTogether` | src/connectors/commons/person_cache.py:51-306 | keys or emails that share a Person share one in every later state |
| `PersonCacheInvariants.BrokenFoldSplits` | src/connectors/commons/person_cache.py:282-286 | and that does need folds to get through: one that breaks off splits the email from its owner's other keys |
| `PersonCacheInvariants.AccountYieldsToEmail` | src/connectors/commons/person_cache.py:120-131 | a new Jira or Confluence key joins the Person of its account's earlier keys if and only if its email has no owner or that one |
| `PersonComponents.FallbackInjective` | src/connectors/commons/person_cache.py:141-141 | colon-free providers: different keys have different provider-scoped ids |
| `PersonComponents.StepKeepsInv` | src/connectors/commons/person_cache.py:51-411 | after each event the sharing of Persons is exactly the connectivity of the calls so far |
| `PersonComponents.ResolvesByConnectivity` | src/connectors/commons/person_cache.py:99-306 | from an empty database, without failures and away from Jira and Confluence, two keys or emails resolve to one Person exactly when a chain of calls connects them: the cache computes connected components |
| `PersonAccounts.StepKeepsTags` | src/connectors/commons/person_cache.py:94-219 | any Jira or Confluence call without an email keeps Persons apart that no account joins |
| `PersonAccounts.ShareOnlyByAccount` | src/connectors/commons/person_cache.py:94-219 | over all runs of Jira and Confluence calls without emails, failing statements included, keys share a Person only if a chain of calls naming the same accounts or external ids joins them |
| `PersonAccounts.TwoCallsStayApart` | src/connectors/commons/person_cache.py:96-97 | two such calls that name neither the same account nor the same external id end on two Persons |
| `PersonAccounts.ShareByExternalId` | src/connectors/commons/person_cache.py:96-97 | without accounts such keys share a Person exactly when they have the same external id |
| `ServiceToken.StepKeepsInv` | src/common/auth/service_token.py:56-144 | every read, write, lock, response and tick keeps the two fields consistent outside the lock and every thread's readings true |
| `ServiceToken.TokenComesFromAnswer` | src/common/auth/service_token.py:68-99 | every token in the cache was installed by the thread that got a server's answer, and its expiry is the clock at the answer plus the lifetime the server gave, less 60 s |
| `ServiceToken.ReturnedTokenIsFresh` | src/common/auth/service_token.py:56-60 | a returned token had more than 60 s of the lifetime its server gave left, counted from the answer, at the clock reading taken in that very call, or was installed after it; under the lock always the former |
| `ServiceToken.OneRequestInFlight` | src/common/auth/service_token.py:114-137 | at most one token request is in flight |
| `ServiceToken.RequestsWaitOutFailures` | src/common/auth/service_token.py:118-133 | no request starts within 30 s of a failed one unless the cache was invalidated in between |
| `ServiceToken.LockedBackoffIsReal` | src/common/auth/service_token.py:118-119 | under the lock a call backs off exactly when a failure is on record and its window is open |
| `ServiceToken.UnlockedBackoffExactly` | src/common/auth/service_token.py:63-65 | without the lock a call backs off exactly when the expiry field shows a failure whose window is open at the reading, or a token unexpired at it; the second needs a token put in or taken away meanwhile, and without that the report is exactly a failure's open window |
| `ServiceToken.UndisturbedBackoffIsReal` | src/common/auth/service_token.py:63-65 | if the lock stays free from the read of the token to that of the expiry, an unlocked call backs off exactly when a failure is on record and its window is open |
| `ServiceToken.UnlockedBackoffCanBeSpurious` | src/common/auth/service_token.py:63-65 | otherwise a call can report a backoff although no request ever failed |
| `ServiceTokenCalls.CallExactly` | src/common/auth/service_token.py:102-127 | an undisturbed call returns an unexpired token, reports an unexpired failure, and in all other cases takes the lock and asks the server |
| `ServiceTokenCalls.AnswerExactly` | src/common/auth/service_token.py:127-137 | an answer leaves the new token, its expiry 60 s before the end of its lifetime, and a free lock |
| `ServiceTokenCalls.FailureExactly` | src/common/auth/service_token.py:128-133 | a failed request leaves no token, a backoff of 30 s from the clock after it, and a free lock |
| `ServiceTokenCalls.NoSecretExactly` | src/common/auth/service_token.py:121-124 | without a secret a call raises and leaves the fields alone |
| `ServiceTokenCalls.InvalidationExactly` | src/common/auth/service_token.py:140-144 | an invalidation takes away the token and any backoff |
| `ServiceTokenCalls.BackoffLastsThirtySeconds` | src/common/auth/service_token.py:63-65 | after a failure an undisturbed call is turned away for exactly 30 s, and then asks the server |
| `SchedulerLease.LeaseRow.TryAcquire` | src/app/scheduler.py:70-94 | the row is won exactly when it has run out or is held by the caller; the row afterwards |
| `SchedulerLease.WinsAreApart` | src/app/scheduler.py:82-94 | two wins by different instances are more than 2 ticks minus twice the clock error apart, over all runs |
| `SchedulerLease.NoTwoActAtOnce` | src/app/scheduler.py:150-189 | so if each winner's work ends within that time no two instances act at once |
| `SchedulerLease.TakenOverInThreeTicks` | src/app/scheduler.py:82-94 | when the holder stops, an instance that keeps ticking wins within three ticks of the last win |
| `SchedulerLease.TakeoverExactly` | src/app/scheduler.py:82-94 | the first win of another instance after a win comes with an attempt if and only if that is more than two ticks later |
| `SchedulerLease.NeverTakenOverEarly` | src/app/scheduler.py:79-94 | so no other instance wins within two ticks of a win |
| `SchedulerLease.RenewalAlwaysWins` | src/app/scheduler.py:82-87 | the holder's own attempt always wins, however late, until another instance has won |
| `SchedulerLease.TakeoverCanTakeThreeTicks` | src/app/scheduler.py:79-80 | and every delay from two up to three ticks occurs, for every tick and phase, not one tick as documented |
| `SchedulerLease.LastScan` | src/app/scheduler.py:123-130 | the latest scan command of a producer, whatever its status |
| `SchedulerLease.GetDueConnectors` | src/app/scheduler.py:97-136 | the due connectors, in order |
| `SchedulerLease.DueExactly` | src/app/scheduler.py:112-136 | a connector is due exactly when it has an interval and a named producer and no scan command for that producer is younger than the interval, in hours; in order |
| `SchedulerLease.FiringsAreApart` | src/app/scheduler.py:115-177 | two firings for one producer, by the times of their scan rows, are at least its interval apart, across changes of leader |
| `CatalogCache.StepKeepsInv` | src/app/query_catalog/loader.py:196-212 | through any stat, read, edit, store or clear, each entry holds what a load made of contents that were each read no earlier than statted |
| `CatalogCache.MatchingEntriesAreRight` | src/app/query_catalog/loader.py:196-212 | an entry, or a list already returned, whose fingerprint is that of the current files is what a fresh load would return, provided each file has held what it holds now ever since it first had its present time and size, or was absent as it is now |
| `CatalogCache.SafeExactlyWhenUnbroken` | src/app/query_catalog/loader.py:60-82 | and that condition on the file's times, sizes and contents is exact: for every other history of a file there is a run that leaves a wrong entry that matches |
| `CatalogCache.CheckExactly` | src/app/query_catalog/loader.py:193-199 | a load returns the cached entry for its flags exactly when every file has the time and the size, or the absence, that the load behind the entry saw; else it reads every file |
| `CatalogCache.StoreExactly` | src/app/query_catalog/loader.py:206-207 | storing replaces the entry of the load's own flags and no other |
| `CatalogCache.EvaluateExactly` | src/app/query_catalog/loader.py:201-207 | a load that fails stores nothing |
| `CatalogCache.ClearedMisses` | src/app/query_catalog/loader.py:50-57 | after a reset nothing is found |
| `CatalogOverlay.LoadNamespaces` | src/app/query_catalog/loader.py:100-167 | the namespaces in order, or the first error met |
| `CatalogOverlay.NamespacesMeaning` | src/app/query_catalog/loader.py:100-167 | declarations load exactly when well formed, pairwise different and, for user ones, with a directory; each gets its position as order, shipped before user |
| `CatalogOverlay.LoadFolder` | src/app/query_catalog/loader.py:226-249 | one pass over the namespaces with its set of seen ids |
| `CatalogOverlay.IdInjective` | src/app/query_catalog/loader.py:333-337 | ids are injective in directory and slug |
| `CatalogOverlay.PassNeverCollides` | src/app/query_catalog/loader.py:225-249 | a pass fails exactly for a missing shipped directory or a refused file, never for a duplicate id, and else yields one query a file with distinct ids |
| `CatalogOverlay.OverlayAll` | src/app/query_catalog/loader.py:281-291 | the dictionary merge, overrides in place and new ids appended |
| `CatalogOverlay.OverlayMeaning` | src/app/query_catalog/loader.py:281-291 | each id of either side once, the user version winning, shipped ids in their old places |
| `CatalogOverlay.SortedMeaning` | src/app/query_catalog/loader.py:293-293 | the result is in order of namespace and lower-case name, a permutation, and stable |
| `CatalogOverlay.LoadCatalogUncached` | src/app/query_catalog/loader.py:215-293 | the uncached load for every disk and both flags |
| `CatalogOverlay.CatalogMeaning` | src/app/query_catalog/loader.py:215-293 | when the load succeeds and what it returns; the duplicate-id errors are unreachable |
| `CatalogOverlay.OriginsMeaning` | src/app/query_catalog/loader.py:281-291 | origin is override exactly for ids on both sides and builtin exactly for shipped-only ids outside a namespace called user_defined, else custom |
| `CatalogContents.LoadsExactly` | src/app/query_catalog/loader.py:215-344 | a load succeeds exactly when the declarations are well formed, every shipped namespace has its directory, and every file it looks at is parsed, safely named and, if Cypher is validated, read-only |
| `CatalogContents.QueryComesFromFile` | src/app/query_catalog/loader.py:318-370 | every returned query has the id, namespace, name and text of a file of its namespace's directory: the user file of that id if there is one, else the shipped file; and its origin accordingly |
| `CatalogContents.EveryFileIsReturned` | src/app/query_catalog/loader.py:225-293 | the ids returned are exactly those of the files, each once |
| `CatalogContents.ListIsInOrder` | src/app/query_catalog/loader.py:293-293 | the list is in the order of the declarations, and within a namespace of the names, ASCII case apart |
| `TopicRouting.Broker.InitTopology` | src/app/scripts/init_rabbitmq.py:115-125 | the declared queues and bindings; declaring again changes nothing |
| `TopicRouting.PlainPatterns` | src/app/scripts/init_rabbitmq.py:45-51 | a pattern without `#` matches word by word, `*` any one word |
| `TopicRouting.HashSkipsWords` | src/app/scripts/init_rabbitmq.py:45-51 | `#` stands for any number of words |
| `TopicRouting.FirstWordDecides` | src/app/scripts/init_rabbitmq.py:45-51 | a `<word>.#` binding accepts exactly the keys whose first word it names |
| `TopicRouting.RoutedByFirstWord` | src/app/scripts/init_rabbitmq.py:45-51 | every key reaches at most one source queue, the one its first word names |
| `TopicRouting.PublishReachesSource` | src/common/messaging/rabbitmq.py:142-142 | a published signal reaches the queue of its source, whatever its entity type |
| `TopicRouting.DeadLetterKeyIsUnroutable` | src/app/scripts/init_rabbitmq.py:120-121 | the key of the dead-letter queue reaches no source queue |
| `RedriveDlq.RedriveUndoesRejection` | src/app/scripts/redrive_dlq.py:67-83 | rejecting and redriving gives a message back under its own key without its death record |
| `RedriveDlq.RedrivenExactly` | src/app/scripts/redrive_dlq.py:67-83 | what becomes of any dead letter: published under the first recorded key, or without a record under the key it carries, and skipped when that key is empty |
| `RedriveDlq.Redrive` | src/app/scripts/redrive_dlq.py:126-181 | what a run publishes, skips and leaves, for every queue, limit and mode in which it ends |
| `RedriveDlq.UnlimitedDryRunEnds` | src/app/scripts/redrive_dlq.py:126-161 | an unlimited dry run ends if and only if no message has a key |
| `RedriveDlq.DryRunRemoves` | src/app/scripts/redrive_dlq.py:142-148 | a dry run leaves the queue as it was exactly when it stops at once or the head has a key |
| `RedriveDlq.RedriveRestores` | src/app/scripts/redrive_dlq.py:163-178 | an unlimited run over rejected messages publishes them all in order under their own keys |
| `RedriveDlq.LimitedThenRest` | src/app/scripts/redrive_dlq.py:127-129 | a limited run publishes at most its limit, and continued it publishes what one unlimited run would |
| `SignalPipeline.DeliveredOnce` | src/common/messaging/rabbitmq.py:133-142 | a message is delivered to one queue or none |
| `SignalPipeline.StepKeepsInv` | src/connectors/consumers/main.py:182-215 | publish, deliver, upsert, ack, reject, crash, take, republish, put back and skip keep every copy's message, queue and history right |
| `SignalPipeline.Itinerary` | src/connectors/consumers/main.py:182-201 | a step moves exactly the copies it concerns, one place on; only a rejection changes a message, to the key of the dead-letter queue with its own key recorded first |
| `SignalPipeline.PublishedExactly` | src/common/messaging/rabbitmq.py:133-142 | publishing puts one copy, with the signal's body and `source.type` as its key, into the queue of its source, and drops a signal of any other source |
| `SignalPipeline.WrittenExactly` | src/connectors/consumers/main.py:182-187 | a graph write is recorded when a consumer finishes it, in time or late, and never undone |
| `SignalPipeline.PossibleNext` | src/connectors/consumers/main.py:182-201 | what can happen to a copy where it stands |
| `SignalPipeline.RoutedNeverLost` | src/connectors/consumers/main.py:182-201 | in every reachable state an accepted signal is queued, in flight, dead-lettered, being redriven or acknowledged |
| `SignalPipeline.AckedWasUpserted` | src/connectors/consumers/main.py:187-188 | an acknowledged signal has a finished graph write |
| `SignalPipeline.UpsertedWasTaken` | src/connectors/consumers/main.py:182-187 | a graph write is on record only for a signal that a consumer has had in flight |
| `SignalPipeline.CopiesStayInOneQueue` | src/app/scripts/redrive_dlq.py:163-176 | all waiting copies of a signal are in the one queue of its source with its original body and key |
| `SignalPipeline.DroppedIsForeign` | src/app/scripts/redrive_dlq.py:142-148 | redrive drops no signal of the pipeline |
| `SignalPipeline.CanStillBeAcked` | src/app/scripts/redrive_dlq.py:6-8 | from every reachable state an accepted signal can still be written and acknowledged |
| `SignalPipeline.RedriveReaches` | src/app/scripts/redrive_dlq.py:67-83 | a redriven dead letter reaches a source queue if and only if the first word of its recovered key is a source; without a death record it is lost |
| `ActivityWriter.DecomposeRelationships` | src/connectors/consumers/activity_writer.py:106-139 | one action row a relationship, in order, with every field as given, empty target fields filled in and the first non-empty of title, summary and key |
| `ActivityWriter.InsertAllMeaning` | src/connectors/consumers/activity_writer.py:271-364 | the one-at-a-time writer keeps the first signal of each key and writes actions for new signals only |
| `ActivityTables.WriteExactly` | src/connectors/consumers/activity_writer.py:282-364 | a signal that equals an earlier one in all but its id changes nothing; any other adds its row and one action row a relationship |
| `ActivityTables.RowsAreFirstOnes` | src/connectors/consumers/activity_writer.py:282-308 | the event rows are exactly the signals not equal to an earlier one in all but the id |
| `ActivityTables.HundredthFlushes` | src/connectors/consumers/activity_writer.py:214-219 | the hundredth signal flushes the batch, and no earlier one does |
| `ActivityWriter.RewriteIsIdempotent` | src/connectors/consumers/activity_writer.py:225-229 | flushing a batch again after part of it was written changes nothing more |
| `ActivityWriter.ActivityWriter.WriteSignal` | src/connectors/consumers/activity_writer.py:271-364 | the tables and the result after one signal: duplicate, new, or refused by the database |
| `ActivityWriter.ActivityWriter.WriteBatch` | src/connectors/consumers/activity_writer.py:231-269 | every signal up to a cancel is attempted, failures or not; without failures the tables are as if written one at a time |
| `ActivityWriter.ActivityWriter.WriterLoop` | src/connectors/consumers/activity_writer.py:204-229 | what is flushed and how much is lost when the loop ends, for every schedule |
| `ActivityWriter.ActivityWriter.RunAndClose` | src/connectors/consumers/activity_writer.py:177-229 | every signal but the lost ones is attempted and the tables are those of the one-at-a-time writer over them; how many are lost follows from the schedule, none exactly when it cuts no timeout flush short |
| `ActivityWriter.LossExactly` | src/connectors/consumers/activity_writer.py:214-229 | a schedule loses signals if and only if the loop gets to a timeout flush whose cancel lands before the end of the batch held, and then exactly the rest of that batch |
| `ActivityWriter.CancelledFlushLoses` | src/connectors/consumers/activity_writer.py:220-224 | for every batch size and every place of the cancel there is a schedule that loses the rest from there on |
| `ActivityWriter.LossIsInvisible` | src/connectors/consumers/activity_writer.py:220-224 | such a loss does not show in the event and action tables if and only if each lost signal was a duplicate or comes again first of its key |
| `PersonNetworkUrl.UnquoteQuote` | src/domain/person_network_url.py:125-125 | percent-decoding undoes percent-encoding for every text |
| `PersonNetworkUrl.ParseUndoesEncode` | src/domain/person_network_url.py:125-141 | parsing an encoded query gives back the same pairs in order, whatever they hold |
| `PersonNetworkUrl.ClampMeaning` | src/domain/person_network_url.py:70-88 | the default for an absent, blank or unparseable cap; the number written when it is in range, else the bound nearest to it |
| `PersonNetworkUrl.CapRoundTrip` | src/domain/person_network_url.py:70-88 | a clamped cap survives being written and read |
| `PersonNetworkUrl.CanonicalKeyIsValid` | src/domain/person_network_url.py:53-67 | a key of two colon-free parts and anything after them is well formed |
| `PersonNetworkUrl.BuildPersonNetworkUrl` | src/domain/person_network_url.py:91-125 | the link: person, cap and the extra parameters that have a value |
| `PersonNetworkUrl.LinkRoundTrip` | src/domain/person_network_url.py:91-150 | a link's query parses to the trimmed id if well formed and to the clamped cap; it gives back exactly its id if and only if that is well formed and untrimmed |
| `PersonNetworkUrl.SearchWithPerson` | src/domain/person_network_url.py:153-189 | the rewritten search, or none |
| `PersonNetworkUrl.SearchSetsPerson` | src/domain/person_network_url.py:153-189 | none exactly when nothing is to change; else one person, the one asked for, every other key's values and the order of the other keys kept, and none when asked again |
| `PersonNetworkUrl.OrderIsKept` | src/domain/person_network_url.py:154-157 | all other parameters keep their order exactly when those of one key stand together in the search given |
| `PersonNetworkText.QuoteExactly` | src/domain/person_network_url.py:125-125 | unreserved characters stand for themselves, every other octet becomes a percent sign and two upper-case hex digits |
| `PersonNetworkText.DecodeExactly` | src/domain/person_network_url.py:141-141 | escapes of either case are read back, a plus sign is a space, a percent sign without two hex digits is itself |
| `PersonNetworkText.EncodeExactly` | src/domain/person_network_url.py:125-125 | how pairs are joined |
| `PersonNetworkText.PairExactly` | src/domain/person_network_url.py:141-141 | where a query is split: at every `&`, and a field at its first `=` |
| `PersonNetworkText.NameExactly` | src/domain/person_network_url.py:141-141 | a field without `=` has an empty value; empty fields are skipped |
| `PersonNetworkText.MarksExactly` | src/domain/person_network_url.py:141-141 | all leading question marks are dropped |
| `PersonNetworkText.ValidExactly` | src/domain/person_network_url.py:66-67 | an id is well formed exactly when its first two `::` have something before, between and after them |
| `PersonNetworkText.DigitsExactly` | src/domain/person_network_url.py:85-87 | exactly digits with single underscores between them are a number |
| `PersonNetworkText.ValueExactly` | src/domain/person_network_url.py:85-85 | and each further digit appends its value |
| `PersonNetworkText.SignsExactly` | src/domain/person_network_url.py:85-87 | one sign may stand in front |
| `PersonNetworkText.StripExactly` | src/domain/person_network_url.py:82-85 | stripping takes the white space off both ends, all of it and no more |
| `PersonNetworkText.CapExactly` | src/domain/person_network_url.py:82-88 | 25 for no number, else the number brought into 1 to 500 |
| `PersonNetworkText.LinkExactly` | src/domain/person_network_url.py:114-125 | the link's path and parameter names |
| `PersonNetworkText.ExtrasExactly` | src/domain/person_network_url.py:121-124 | extra parameters in order, those without a value skipped |
| `GraphTheme.PxRoundTrip` | src/domain/graph_theme.py:384-394 | an int printed with or without its suffix reads back as the nearest double |
| `GraphTheme.RoundedTwice` | src/domain/graph_theme.py:384-394 | rounding once is rounding for good |
| `GraphThemeTokens.RoundedExactly` | src/domain/graph_theme.py:391-392 | which double an int becomes: the nearest with 53 leading bits, the even one half-way |
| `GraphThemeTokens.SuffixInAnyCase` | src/domain/graph_theme.py:388-392 | a size is read with or without its suffix, in any case, white space around it |
| `GraphThemeTokens.UnreadableSizes` | src/domain/graph_theme.py:386-394 | sizes that cannot be read count as the defaults |
| `GraphTheme.MergeNodeOverride` | src/domain/graph_theme.py:240-259 | set fields replace the base's properties and the others stay |
| `GraphTheme.MergeThemeOverrides` | src/domain/graph_theme.py:299-381 | the rendered styles of every node type, the edges and the globals |
| `GraphThemeTokens.NodeStyleExactly` | src/domain/graph_theme.py:262-296 | where every property of a node type comes from: the override, the token of the type, the token of the default type, a constant |
| `GraphThemeTokens.EdgeStyleExactly` | src/domain/graph_theme.py:345-361 | the same for the edges |
| `GraphThemeTokens.GlobalStyleExactly` | src/domain/graph_theme.py:363-379 | and for the globals |
| `GraphThemeTokens.OneWord` | src/domain/graph_theme.py:233-237 | a node type of one word has the tokens of the word in lower case |
| `GraphThemeTokens.TwoWords` | src/domain/graph_theme.py:233-237 | one of two words has them joined by an underscore |
| `GraphThemeTokens.NodeValidExactly` | src/domain/graph_theme.py:144-159 | which node overrides are accepted |
| `GraphThemeTokens.ValidExactly` | src/domain/graph_theme.py:162-215 | which documents are accepted |
| `GraphThemeTokens.TypesExactly` | src/domain/graph_theme.py:36-54 | the node types |
| `GraphThemeTokens.ShapesExactly` | src/domain/graph_theme.py:59-84 | the node shapes |
| `GraphTheme.ViewsAgree` | src/domain/graph_theme.py:397-487 | the editor's semantic view is the meaning of the rendered styles |
| `GraphTheme.SnapshotIsFrozen` | src/domain/graph_theme.py:413-415 | re-resolving an accepted snapshot over any other palette returns the same theme |
| `GraphTheme.SnapshotRendersTheSame` | src/domain/graph_theme.py:299-381 | a snapshot renders the same over every palette |
| `GraphTheme.SnapshotMeansTheTheme` | src/domain/graph_theme.py:413-415 | a stored snapshot renders, over any palette, what the theme it was taken from meant |
| `GraphTheme.PaletteInRange` | src/domain/graph_theme.py:144-178 | snapshots of all accepted documents are accepted if and only if the palette's own theme is in range |
| `ReconcileEs.ScrollEsIds` | scripts/reconcile_es.py:180-213 | the ids read up to the end, a missing scroll id, or a failure |
| `ReconcileEs.CollectedExactly` | scripts/reconcile_es.py:183-207 | those are exactly the hits of the pages up to the first that fails, is empty or leads no further |
| `ReconcileEs.Index.Upsert` | scripts/reconcile_es.py:266-278 | the documents written, the count, and what failures leave |
| `ReconcileEs.Index.DeleteStale` | scripts/reconcile_es.py:286-301 | only stale ids go; the count |
| `ReconcileEs.Index.ReconcileIndex` | scripts/reconcile_es.py:246-301 | no live document is lost and nothing but node documents is written, however the scroll ends and whatever fails; a dry run changes nothing and counts what a real run would do |
| `ReconcileEs.IdsAgree` | scripts/reconcile_es.py:283-301 | without failed writes, in both modes, the ids are those of the graph if and only if the scroll saw every stale id |
| `ReconcileEs.FullRunRebuilds` | scripts/reconcile_es.py:20-25 | a full run makes the index the function of the graph it should be, under the same exact condition |
| `ReconcileEs.DocExactly` | scripts/reconcile_es.py:150-177 | a document in full: the node's public properties, its key, its neighbours, and the source and type of the key where the node has none |
| `ReconcileEs.FullRunExactly` | scripts/reconcile_es.py:110-146 | a full run leaves the document of every node of the type with a key of the pair that is no stub, and of no other if its scroll saw every stale id |
| `ReconcileEs.TargetedRunKeeps` | scripts/reconcile_es.py:252-262 | a targeted run writes exactly the missing documents |
| `ReconcileEs.SecondRunIsIdle` | scripts/reconcile_es.py:283-301 | a second run has nothing to delete, and after a full run changes nothing |
| `ReconcileEs.DocNamesItsKey` | scripts/reconcile_es.py:150-177 | a node without source and type properties gets them from its key |

## Left out

- PersonCache.PersonCache.GetOrCreatePerson: names, urls, observation times, statistics and logging are not modelled, nor a failing read; a call without an email or account gets no row for it.
- PersonCache.PersonCache.QueueIdentityMapping: only Persons that exist when queued are considered in the runs, and one cache is the only writer; `clear` and the properties of the mapping node are not modelled.
- PersonComponents.ResolvesByConnectivity: needs providers without a colon and other than jira and confluence, an empty database at the start and no failing statement; `PersonCacheInvariants` says what holds without that.
- PropertyGraph.Session.MergeRelationship: every node has one label, and a stored property called `from_id` or `to_id` is taken for a property like any other; parallel edges are counted as one triple.
- PropertyGraph.Session.Run: of `merge_person` only the existence of the node and its email are modelled; which names and other properties it overwrites is not.
- SnapshotReplace.ReplaceSnapshot: takes the two interaction types its callers pass, COMMENTED_ON and REACTED_TO; times are integers.
- ServiceToken.StepKeepsInv: the module is a state machine rather than a class, since the interleaving of single field accesses is the point; times are integers and the settings a choice.
- SchedulerLease.WinsAreApart: the clock error is at most one tick, and each instance's updates reach the database in the order it sent them.
- SchedulerLease.FiringsAreApart: one clock for all instances; a scan row is no older than the reading of its tick.
- CatalogCache.MatchingEntriesAreRight: one catalog directory, whose set of paths is fixed, though a file may be absent; what a load makes of the contents is any function of them, so YAML, model validation and directories that appear or vanish empty are not modelled.
- CatalogOverlay.LoadCatalogUncached: what the YAML parser, the model validation and the read-only check make of a file is part of the input; names are lowered in ASCII; of the errors only the kind is kept.
- CatalogOverlay.LoadNamespaces: names other than the directory are not modelled.
- TopicRouting.Broker.InitTopology: the command-and-control and runtime-config exchanges are not modelled.
- RedriveDlq.Redrive: no dead letter arrives during a run, and failing publishes and crashes are in `SignalPipeline` instead; content type and headers other than x-death are not modelled.
- SignalPipeline.RoutedNeverLost: the broker keeps what it has accepted; the search and timeline writes after the acknowledgement are not part of it.
- ActivityWriter.ActivityWriter.RunAndClose: everything is enqueued before the final drain; a wait that is cancelled or times out takes no signal; the module's queue is one sequence because arrival times matter only through how waits end.
- ActivityWriter.ActivityWriter.WriteSignal: the event insert and the action inserts are one step; the content hash is injective; display name and avatar are not modelled.
- PersonNetworkUrl.LinkRoundTrip: texts are their UTF-8 octets, so decoding of malformed UTF-8 and non-ASCII white space and digits are not modelled; neither is a cap of more than 4300 digits, whose conversion Python refuses.
- GraphTheme.SnapshotIsFrozen: what Python's float makes of a text that is no decimal integer is any function; a border width whose nearest double is 2^1024 or more, on which Python raises, is excluded here, in `PaletteInRange` and in `SnapshotMeansTheTheme`; the translation into stylesheet rules is left out.
- ReconcileEs.Index.ReconcileIndex: one index; the loop over the managed pairs and its filters repeat it; the graph does not change during a run and property values are taken as they are.
- The read-side of the activity API, the chat, the dashboards, the producers, the role matrix and the session guard are not modelled: they are short branches, library calls or presentation.
- The other `merge_*` functions of the graph layer repeat `merge_person` with other property lists.
- `get_catalog_query` is a linear search by id over the list the catalog load returns.

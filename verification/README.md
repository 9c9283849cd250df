# Verified model of the backup dashboard's NetWorker core

The dashboard collects NetWorker state over REST, writes it to Elasticsearch, and looks up, for each backup action
run, the policy, workflow and protection group it belongs to. This project models the parts of it whose correctness
spans many calls, and proves what they promise over whole runs. It is checked with `dafny verify dfyconfig.toml`.

**The action lookup ledger and its store** (`apps/lookups/networker_action/`). `Aggregate.ActionLookupBuilder` is the
incremental evidence ledger, as a class whose methods change its fields in the loops of the source; each method is
proved equal to a step of `EvidenceLedger`. `Extract`, `Validate`, `Normalize` and `Models` are what it is built from.
`History` shows that a ledger is determined by the *set* of observations it has seen. From that follow the verdicts
(`Verdicts`), the irrelevance of arrival order (`ArrivalOrder`) and the isolation of sources (`Isolation`).
`Publication` says what a build verifies, blocks and shows in terms of the snapshots, records and attestations alone,
without the functions that choose, check and conclude.
`Store` is the compare-and-swap store, and `Agreement` runs both together, in any interleaving of arrivals and builds.
`Instances` holds concrete runs, from hits to documents, in which a theorem's proviso fails and its conclusion with it.

**The point-in-time reader** (`ReadAdapter`): a cursor loop against a transport that may answer anything.

**The collection scheduler** (`Scheduler`, `Schedule`, `Windows`): the class loops of one NetWorker collector as a state
machine over their await points, with an object whose methods take its steps; the wall-clock arithmetic of slots; the
query windows and the request plan.

**The event index** (`EventIndex`), **the NetWorker report** (`Report`) and **the XML search** (`Xml`): ids and routing
under repeated delivery, conservation of totals by two groupings, and an element count that survives the conversion.

`Basics.dfy` holds shared datatypes, text, the insertion-ordered dictionary and JSON values.

## Assumptions

- SHA-256 of canonical JSON is injective, so a fingerprint is modelled as the value that is hashed.
- Instants are integers (microseconds, UTC). How foreign time text is read, how a month or ISO text is written and how
  number text is parsed are parameters, arbitrary but fixed.
- A sleep lasts at least as long as asked. A waiter woken by a released lock runs before a timer armed after the release.
- Text is a sequence of characters; white space and case are the ASCII ones.
- How the transport answers a search depends on the request and on how many searches were made before, which admits
  every history of answers.

## What turned out conditional

- **Builder and store.** Below the reference limit a build is never rejected. Above it, it is rejected exactly when a
  stored action's candidates have changed and one of the two audits, cut at the limit, no longer shows the old ones
  (`Agreement.RejectionIsExact`); a run that ends in such a rejection is given (`Instances.SomeBuildIsRejected`).
- **Arrival order.** It decides nothing, provided equally late, equally named unfinished snapshots of a job agree on
  its end, and equally late observations of a revision agree on whether their hit can be located. Neither proviso can be
  dropped: there are two orders of the same hits, keeping the other proviso, of which one blocks the action and one does
  not, and two of which one verifies it and one does not (`Instances.TiesDecideTheVerdict`,
  `Instances.ReferencesDecideTheVerdict`).
- **Missed slots.** A run misses no slot if it ends before the next one, and for intervals of whole days on its own day
  (`Schedule.LoopKeepsInterval`).
- **Slots.** Next runs lie in one progression for all days exactly when the interval divides the day. Exact wake-ups
  are one interval apart from every start exactly when it does, or when it is whole days with a slot in the first of
  them (`Schedule.SlotsAreGlobalIffDividing`, `Schedule.EvenlySpacedExactly`); an interval of seven minutes is a
  counterexample (`Schedule.SevenMinutesAreUneven`).
- **Query windows.** Collections leave no whole second out exactly when each window touches the one before, counted in
  whole seconds (`Windows.NoGapExactly`).
- **Repeated delivery.** A delivered backup has one document if and only if its deliveries agree on the domain and the
  month of the event time, and a job if and only if its deliveries agree on the domain and the month of the start, or of
  the end without one (`EventIndex.BackupIsHeldOnceExactly`, `EventIndex.JobIsHeldOnceExactly`). A backup first seen by
  its save time and completed in another month is held twice (`EventIndex.LateCompletionIsHeldTwice`).
- **Backup ids.** Document ids of two backups coincide exactly for the same API id, the same joined text of client, save
  set and completion, or an API id that spells the other's fallback id (`EventIndex.BackupIdentityIsExact`). So they tell
  backups apart if no API id starts with `fallback:` and no name holds a NUL (`EventIndex.OrdinaryIdentityIsExact`), and
  can fail to otherwise (`EventIndex.ApiIdCanSpellFallback`, `EventIndex.SeparatorsCanCollide`).

## Model

| member | source | states |
|---|---|---|
| Normalize.SuffixSplitIsExact | apps/lookups/networker_action/normalize.py:8-18 | splitting at the last colon finds a (name, digits) pair exactly when the suffix pattern matches with that pair; so the match is unique |
| Normalize.SuffixRoundTrip | apps/lookups/networker_action/normalize.py:11-22 | any stripped newline-free name, colons and numeric suffixes of its own included, followed by a colon and digits, normalizes to exactly that name and those digits |
| Normalize.NormalizedNameIsPublishable | apps/lookups/networker_action/normalize.py:11-23 | an accepted name is non-empty and stripped, keeps its original, and loses text only to an exact suffix match |
| Normalize.RefusedNamesExactly | apps/lookups/networker_action/normalize.py:11-21 | a name is refused exactly when it is no text, is blank, is nothing but a colon and digits, or is blank before its suffix |
| Models.KeyTextInjective | apps/lookups/networker_action/aggregate.py:101 | two actions never share a lookup document id |
| Models.IntegerIds | apps/lookups/networker_action/models.py:16-21 | exactly the positive integers are ids, and a number and its decimal text are the same id |
| Models.AttributeOrderIsIrrelevant | apps/lookups/networker_action/aggregate.py:48-54 | neither the order nor the repetition of attributes makes another revision |
| Models.SourcesRead | apps/lookups/networker_action/aggregate.py:101 | a lookup id starts with the name of its own source, and text names a source exactly when, stripped and in lower case, it is core, chnl or info |
| Models.SourceIsNamed | apps/lookups/networker_action/models.py:56-65 | a document has a source exactly when it names one outside or inside its payload and every name it gives is valid and of that source |
| Models.UnwrapExactly | apps/lookups/networker_action/models.py:68-74 | a hit gives the document under `_source`, or itself, with its own index and id, exactly when both are objects |
| Models.SameRevisionExactly | apps/lookups/networker_action/aggregate.py:48-54 | two backups with ids are one revision exactly when id, action, original names, the values given under each attribute key and the two reported times agree |
| Models.AnonymousRevisions | apps/lookups/networker_action/aggregate.py:62-66 | without ids one revision has one place where it was read |
| Extract.ExtractBackup | apps/lookups/networker_action/extract.py:54-102 | the attribute loop and its checks give the specified outcome for one backup entry: evidence, or one issue with all its faults |
| Extract.ExtractRaw | apps/lookups/networker_action/extract.py:24-51 | one hit gives the specified extraction, error paths included |
| Extract.EveryEntryIsAccountedFor | apps/lookups/networker_action/extract.py:48-50 | each backup entry of a readable response yields exactly one evidence or exactly one issue, at its own position |
| Extract.OutcomeIsAttributed | apps/lookups/networker_action/extract.py:54-102 | evidence is canonical and carries source, place and time; a rejection names the source, and the action exactly when its id can be read |
| Extract.ExtractionIsAttributed | apps/lookups/networker_action/extract.py:24-51 | all findings of a hit stay with its source, and an unattributed one marks the source incomplete; a hit without a source gives a single issue without one |
| Extract.PartialHitsAreNoted | apps/lookups/networker_action/extract.py:37-39 | a hit with `ok` false, a collection status of partial or error, or endpoint errors leaves a finding without an action and its source incomplete |
| Extract.IncompleteExactly | apps/lookups/networker_action/extract.py:32-88 | a readable hit leaves its source incomplete exactly when it reports so, has no list of entries, or has an entry that names no action |
| Extract.CompleteHitsAreClean | apps/lookups/networker_action/extract.py:37-51 | a hit that reports nothing of the kind and whose entries all are backups leaves no finding, one evidence for each entry, and its source complete |
| Extract.FiledExactly | apps/lookups/networker_action/extract.py:54-102 | an entry becomes evidence exactly when its attributes are readable and give one valid action id and one acceptable policy, workflow and group each |
| Extract.BackupsAreFiled | apps/lookups/networker_action/extract.py:89-102 | that evidence has the id and the three names the attributes give, the stripped backup id, and the times the entry reports |
| Extract.FiledKeepsAttributes | apps/lookups/networker_action/extract.py:98-102 | the attributes of evidence are those of its entry, key by key and value by value, in order |
| Extract.EvidenceShowsItsPlace | apps/lookups/networker_action/extract.py:48-50 | every evidence of a hit has the index and id of the hit, the raw document id, and the position of the entry it was read from |
| Validate.LatestSnapshot | apps/lookups/networker_action/validate.py:59-60 | the maximum by observation time, then status, the first of equals |
| Validate.SelectJob | apps/lookups/networker_action/validate.py:47-69 | the chosen snapshot, and exactly the reasons against the set of snapshots |
| Validate.ValidateSave | apps/lookups/networker_action/validate.py:72-89 | exactly the faults of a save job against an action |
| Validate.CheckSaves | apps/lookups/networker_action/validate.py:116-122 | the loop over all jobs collects the reasons of exactly those that have a snapshot naming the action as parent |
| Validate.ExecutionCheck | apps/lookups/networker_action/validate.py:92-123 | the whole check of an action against its workflow and saves |
| Validate.OutranksIsStrict | apps/lookups/networker_action/validate.py:60 | the ranking of snapshots is a strict weak order |
| Validate.LatestIsUnbeaten | apps/lookups/networker_action/validate.py:55-60 | the chosen snapshot is one of the pool and no snapshot of it ranks above it |
| Validate.ReadJobsAreCanonical | apps/lookups/networker_action/validate.py:28-44 | a job that is read has a canonical id and names only canonical parents and roots |
| Validate.JobIsReadExactly | apps/lookups/networker_action/validate.py:28-44 | a job is read exactly from a job-run document with a source, a canonical id and textual type and status; its type, status, parent, root, start and end are those of the payload, its observation that of the document |
| Validate.SelectionReasonsExactly | apps/lookups/networker_action/validate.py:47-69 | each reason against a set of snapshots is given exactly on its ground: two starts or types, two parents or roots, two endings, or times and status of the chosen one out of order |
| Aggregate.ActionLookupBuilder.constructor | apps/lookups/networker_action/aggregate.py:27-34 | a new builder has the empty ledger |
| Aggregate.ActionLookupBuilder.RecordIssues | apps/lookups/networker_action/aggregate.py:41-45 | attributed issues block their action, sourceless ones raise the global flag, and nothing else changes |
| Aggregate.ActionLookupBuilder.MarkRevisions | apps/lookups/networker_action/aggregate.py:55-61 | a rival revision blocks the action of each side |
| Aggregate.ActionLookupBuilder.AddEvidence | apps/lookups/networker_action/aggregate.py:46-69 | the whole new ledger after one evidence: identity, conflicts, and the latest observation of the revision |
| Aggregate.ActionLookupBuilder.AddRaw | apps/lookups/networker_action/aggregate.py:36-69 | the whole new ledger after a RAW batch |
| Aggregate.ActionLookupBuilder.AddJobs | apps/lookups/networker_action/aggregate.py:71-83 | the whole new ledger after a batch of job runs |
| Aggregate.ActionLookupBuilder.InspectEvidence | apps/lookups/networker_action/aggregate.py:117-132 | the loop over records finds exactly the pending and blocking reasons they give |
| Aggregate.ActionLookupBuilder.BuildDocument | apps/lookups/networker_action/aggregate.py:104-175 | the document of one action, and that building changes nothing |
| Aggregate.ActionLookupBuilder.ReadCoverage | apps/lookups/networker_action/aggregate.py:90-96 | attestations by action, or an error for an invalid id or a second attestation |
| Aggregate.ActionLookupBuilder.Build | apps/lookups/networker_action/aggregate.py:85-102 | a document for exactly the actions the ledger has heard of, under their ids, or the errors of limit and coverage |
| EvidenceLedger.MarkOneMore | apps/lookups/networker_action/aggregate.py:57-60 | marking rival revisions one at a time and all at once block the same actions |
| EvidenceLedger.AttestFailsOn | apps/lookups/networker_action/aggregate.py:91-96 | a coverage list that cannot be attested up to some item cannot be attested with more |
| History.ConflictsAreRivals | apps/lookups/networker_action/aggregate.py:55-61 | filing evidence marks a key exactly when a rival revision was seen under it |
| History.FileExplains | apps/lookups/networker_action/aggregate.py:46-69 | filing one evidence keeps the ledger determined by the set of observations seen |
| History.RunsAreExplained | apps/lookups/networker_action/aggregate.py:36-83 | every reachable ledger is determined by the sets of hits fed: records, revisions, blocked reasons, jobs, incomplete sources and the global flag, each both ways |
| History.IssuesAreThoseOfHits | apps/lookups/networker_action/aggregate.py:39-83 | the findings of a run are those of its hits: none is lost and none made up |
| History.FeedInTwo | apps/lookups/networker_action/aggregate.py:36-83 | how hits are split into calls does not matter |
| Verdicts.RecordsAreSeen | apps/lookups/networker_action/aggregate.py:67-69 | under a key stands exactly one record for each revision seen, by a latest observation of it |
| Verdicts.CandidatesAreSeen | apps/lookups/networker_action/aggregate.py:106-108 | the candidates of a document are those of every observation ever seen under the key |
| Verdicts.LatestObservationIsKept | apps/lookups/networker_action/aggregate.py:67-69 | of each revision seen an observation is kept, none later having been seen |
| Verdicts.KnownExactly | apps/lookups/networker_action/aggregate.py:97-100 | a build has a document for exactly the actions that a backup names, a finding accuses, an action job is, or a save job names as its parent |
| Verdicts.CheckIsExact | apps/lookups/networker_action/validate.py:92-123 | the execution check has no reason at all exactly when the run hierarchy is complete and agrees |
| Verdicts.VerifiedIsExact | apps/lookups/networker_action/aggregate.py:104-141 | a document is verified if and only if everything publication asks for holds: one candidate, nothing blocked, inputs complete, a fitting hierarchy, fitting backups, complete coverage |
| Verdicts.VerifiedTimesAreNested | apps/lookups/networker_action/aggregate.py:109-141 | verified implies workflow start <= action start <= each save time <= its completion <= action end <= observation <= sync, action end <= a known workflow end, and the run inside the coverage |
| Verdicts.VerifiedSavesBelong | apps/lookups/networker_action/validate.py:116-122 | every snapshot naming a verified action as parent has its root, if any, and starts within its bounds; the selected one also ends within them |
| Verdicts.CompleteStoryIsPublished | apps/lookups/networker_action/aggregate.py:104-141 | publication is possible: a finished action, its workflow and one backup with an id, all fitting, make a ledger that runs explain and, under a complete reviewed coverage, publish the backup's names |
| Verdicts.ConclusionPublishesOne | apps/lookups/networker_action/aggregate.py:139-141 | names are published by verified conclusions only, and are then those of the one candidate |
| Verdicts.PublishedNamesAreTheCandidate | apps/lookups/networker_action/aggregate.py:139-141 | published names are the only candidate ever seen under the key, and none is empty |
| Verdicts.RevisionConflictIsExact | apps/lookups/networker_action/aggregate.py:48-69 | in every run a key carries the revision conflict if and only if some backup id was seen in two revisions, one of them under that key |
| Verdicts.VerifiedCountIsDistinctBackups | apps/lookups/networker_action/aggregate.py:151-171 | a verified document's reference count is the number of distinct backup ids seen under its action |
| Verdicts.PublishedNamesNeverChange | apps/lookups/networker_action/aggregate.py:139-141 | two verified documents of one growing ledger publish the same names, whatever coverage each used |
| Verdicts.RunsPublishOneName | apps/lookups/networker_action/aggregate.py:36-141 | over any run and its continuation a key is published with one triple of names |
| Verdicts.MalformedInputFailsClosed | apps/lookups/networker_action/aggregate.py:39-45 | after a malformed hit every later build blocks the action named, verifies nothing of the source when only that is known, and nothing at all when neither is |
| Verdicts.PartialCollectionFailsClosed | apps/lookups/networker_action/extract.py:37-39 | after a hit that reports a partial collection no document of its source is verified, whatever is fed before and after |
| Verdicts.UnreadableJobFailsClosed | apps/lookups/networker_action/aggregate.py:73-78 | after an unreadable job hit no later build verifies anything |
| Publication.SpeakerIsChosen | apps/lookups/networker_action/validate.py:58-60 | one snapshot of a job speaks for it, an ended one if there is any, of those the latest, of equals the first; and it is the one chosen |
| Publication.RunStandsExactly | apps/lookups/networker_action/validate.py:92-123 | the run hierarchy is complete and agrees exactly when, on the snapshots alone, the action ended, its workflow encloses it and each job naming it as parent is a save within its bounds |
| Publication.AttestExactly | apps/lookups/networker_action/aggregate.py:90-96 | a coverage list is accepted exactly when every item names an action and no two the same action of the same source; the attestation of an action is then the item about it |
| Publication.BuildSucceedsExactly | apps/lookups/networker_action/aggregate.py:88-96 | a build is refused exactly for a limit below one or a coverage list that is not accepted |
| Publication.BuildVerifiesExactly | apps/lookups/networker_action/aggregate.py:85-141 | a build verifies an action if and only if the list holds an item of that source spelling that id, complete for the run and reviewed, and the snapshots, records and ledger flags all stand; stated on their fields |
| Publication.BuildPublishesItsBackups | apps/lookups/networker_action/aggregate.py:101-141 | a verified document of a build has the names that each backup recorded under it gives |
| Publication.StoryIsPublishedByBuild | apps/lookups/networker_action/aggregate.py:85-141 | a finished action, its workflow and one backup that agree are published by a build whose list holds a complete, reviewed item about that very action |
| Publication.OtherItemsChangeNothing | apps/lookups/networker_action/aggregate.py:91-102 | an item about another id, or the same id of another source, changes nothing in an action's document |
| Publication.BlockedExactly | apps/lookups/networker_action/aggregate.py:109-140 | a document is blocked exactly when the snapshots of its run contradict each other, the ledger holds something against the action, or a backup lies outside the run |
| Publication.MappingExactly | apps/lookups/networker_action/aggregate.py:139-140 | two different triples of names make a mapping ambiguous, none leaves it unresolved, or invalid where blocked; what is unverified is ambiguous |
| Publication.ReasonsExactly | apps/lookups/networker_action/aggregate.py:109-142 | each reason is given exactly when its ground is there: in the snapshots of the run, the inputs, the attestation, the records, or held in the ledger |
| Publication.DocumentShowsRun | apps/lookups/networker_action/aggregate.py:155-166 | start, end, status, type and workflow run of a document are those of the snapshot that speaks for the action |
| Publication.DocumentShowsCoverage | apps/lookups/networker_action/aggregate.py:155-174 | key, source, action, coverage bounds, proof, review, generation and time of the build |
| Publication.DocumentShowsRecords | apps/lookups/networker_action/aggregate.py:151-174 | the count of all records, and the first of them each with its names as written and as published, suffixes, attributes and place |
| Publication.DocumentCountsNames | apps/lookups/networker_action/aggregate.py:106-108 | the counts and the candidates are those of the triples of names recorded, as written and as published |
| Publication.DocumentShowsLatest | apps/lookups/networker_action/aggregate.py:148-167 | the observation time is the latest of the backups and of the snapshot that speaks for the action |
| ArrivalOrder.ArrivalOrderIsIrrelevant | apps/lookups/networker_action/aggregate.py:36-141 | two runs fed the same sets of hits have documents for the same actions, with the same candidates, mapping, verification and public names |
| ArrivalOrder.VerdictAgrees | apps/lookups/networker_action/aggregate.py:104-141 | two ledgers explained by the same observations reach the same verdict on every key |
| ArrivalOrder.ExecutionAgrees | apps/lookups/networker_action/validate.py:47-123 | the execution check blocks in both of two such ledgers or in neither, and then sees the same run |
| ArrivalOrder.TiesAreBrokenByArrival | apps/lookups/networker_action/validate.py:47-69 | of two unfinished snapshots level in time and status, one consistent and one not, the two orders give one coherent list and one that is not |
| ArrivalOrder.FirstOfLevelObservationsIsKept | apps/lookups/networker_action/aggregate.py:67-69 | the ledger's records of two equally late observations of a revision hold the first to arrive, in either order |
| Instances.TiesDecideTheVerdict | apps/lookups/networker_action/validate.py:47-69 | two orders of the same job hits, whose evidence agrees, of which exactly one leads to a blocked document, whatever the coverage and the time |
| Instances.ReferencesDecideTheVerdict | apps/lookups/networker_action/aggregate.py:67-69 | two orders of the same RAW hits, with jobs free of ties, of which exactly one leads to a verified document |
| Instances.SomeBuildIsRejected | apps/lookups/networker_action/adapters.py:136-145 | a run from hits over a stored build to a build the store rejects: two candidates stored with an audit of one, then a third |
| Isolation.SourcesAreIsolated | apps/lookups/networker_action/aggregate.py:36-141 | hits attributed to other sources, fed at any point of a run, change neither which documents a source has nor anything they say, even when ids coincide |
| Isolation.FileElsewhere | apps/lookups/networker_action/aggregate.py:46-69 | evidence of another source leaves everything the ledger holds for this one alone |
| Isolation.CheckIsLocal | apps/lookups/networker_action/validate.py:92-123 | the execution check of an action depends on jobs of its own source only |
| Store.InMemoryLookupStore.constructor | apps/lookups/networker_action/adapters.py:108-111 | a new store is at version zero, empty, without checkpoint |
| Store.InMemoryLookupStore.Inspect | apps/lookups/networker_action/adapters.py:117-148 | no fault is found exactly when every document is acceptable; a fault found is one of some document |
| Store.InMemoryLookupStore.Replacement | apps/lookups/networker_action/adapters.py:150-163 | untouched keys persist, and a blocked document takes over the stored execution |
| Store.InMemoryLookupStore.Commit | apps/lookups/networker_action/adapters.py:113-167 | accepted exactly at the current version with acceptable documents, and then state, checkpoint and version change together; otherwise nothing changes |
| Store.AcceptedCandidatesGrow | apps/lookups/networker_action/adapters.py:136-145 | a document that passes inspection keeps every stored candidate |
| Store.AcceptedExactly | apps/lookups/networker_action/adapters.py:117-148 | a document is accepted exactly when its key, source and names fit each other and it neither replaces a start, nor loses a candidate, nor shows an ended run as running |
| Store.FaultsHaveGrounds | apps/lookups/networker_action/adapters.py:117-148 | each refusal says what is wrong with the document |
| Store.CommittedShows | apps/lookups/networker_action/adapters.py:149-167 | after an accepted commit a document is stored as given, a blocked one over a stored one with the stored execution and its own kept aside; version and checkpoint are those of the commit |
| Store.EndedDoesNotRun | apps/lookups/networker_action/adapters.py:146-163 | after any accepted commit a key whose stored status was success, failed or canceled does not show running |
| Store.StoredSpeakForThemselves | apps/lookups/networker_action/adapters.py:117-130 | over any commit attempts on a new store every stored key is source, colon and action id of its document, a document that is not resolved and verified publishes no name, and one that is has one candidate and three non-empty names |
| Store.MergeEvolves | apps/lookups/networker_action/adapters.py:131-163 | an accepted commit loses no document, shrinks no candidate set and alters no known start |
| Store.StoreHistory | apps/lookups/networker_action/adapters.py:113-167 | over any sequence of commit attempts of well-formed documents stored candidates form an increasing chain and a known start is never altered |
| Store.OnlyAcceptedCommitsCount | apps/lookups/networker_action/adapters.py:113-167 | the version counts accepted commits, keys no attempt names keep their document, and refused attempts leave everything, checkpoint included |
| Agreement.PublishOnce | apps/lookups/networker_action/aggregate.py:85-102 | building with the builder object and committing with the store object is one step of the joint run |
| Agreement.DraftReflects | apps/lookups/networker_action/aggregate.py:104-175 | a built document is well formed and says nothing that was not seen |
| Agreement.DraftKeepsExecution | apps/lookups/networker_action/validate.py:51-52 | two starts in the ledger force a block, so an unblocked document keeps the stored start |
| Agreement.DraftStaysTerminal | apps/lookups/networker_action/validate.py:55-60 | once a terminal snapshot was seen every document of the action is terminal |
| Agreement.AuditDecides | apps/lookups/networker_action/adapters.py:136-145 | where candidates have only grown, the store's count and fingerprint rules object exactly when an audit is too short |
| Agreement.DraftFault | apps/lookups/networker_action/adapters.py:117-148 | the store has no other objection to a built document than an audit too short |
| Agreement.RunsReflect | apps/lookups/networker_action/adapters.py:113-167 | in every run the store says nothing that was not seen |
| Agreement.RejectionIsExact | apps/lookups/networker_action/adapters.py:113-167 | after any run a build is rejected if and only if some stored action's candidates changed and an audit no longer shows the old ones |
| Agreement.RoomyRunsAreNeverRejected | apps/lookups/networker_action/adapters.py:113-167 | while no action has more records than the reference limit, no interleaving of arrivals and builds under any coverages produces a rejected build |
| Agreement.StoreOnlyLearns | apps/lookups/networker_action/adapters.py:113-167 | whatever follows a run, no stored document is lost, no candidate forgotten, no start altered, and no ended action runs again |
| Agreement.StoredNamesNeverChange | apps/lookups/networker_action/adapters.py:123-145 | through the store a key's names are only ever one triple or null |
| ReadAdapter.ElasticsearchReadAdapter.Create | apps/lookups/networker_action/adapters.py:36-39 | page sizes from 1 to 1000 and at least one page are accepted, nothing else |
| ReadAdapter.ElasticsearchReadAdapter.Loop | apps/lookups/networker_action/adapters.py:55-79 | the cursor loop yields, fails, advances the point in time and searches as specified |
| ReadAdapter.ElasticsearchReadAdapter.Examine | apps/lookups/networker_action/adapters.py:64-76 | what one reply means: a broken page with its reason, the last page, or a full page with its cursor |
| ReadAdapter.ElasticsearchReadAdapter.YieldAll | apps/lookups/networker_action/adapters.py:74-77 | hits are handed on up to the first without a source |
| ReadAdapter.ElasticsearchReadAdapter.ReadBatch | apps/lookups/networker_action/adapters.py:41-81 | the batch or its error; nothing is opened for unreadable indices; after opening, one close, of the point in time the scan ended with |
| ReadAdapter.ChainsAreClean | apps/lookups/networker_action/adapters.py:64-76 | one timed-out, partial, terminated, malformed or sourceless page anywhere breaks the chain |
| ReadAdapter.WalkIsFaithful | apps/lookups/networker_action/adapters.py:55-79 | a scan succeeds exactly when its exchanges form an unbroken chain of clean pages down to an empty one, and then yields all their hits in order |
| ReadAdapter.WalkHoldsLatestPit | apps/lookups/networker_action/adapters.py:62-81 | however the scan ends, it ends with the point in time last named by the transport |
| ReadAdapter.BatchIsAllOrNothing | apps/lookups/networker_action/adapters.py:41-81 | a batch is given out if and only if opening, every page and closing went well, and is then all their hits |
| ReadAdapter.HealthyReadIsComplete | apps/lookups/networker_action/adapters.py:41-81 | over N hits with strictly increasing cursors and page size p the read gives exactly those hits, in order, if ceil(N/p)+1 <= max_pages, and otherwise raises |
| ReadAdapter.ReadableExactly | apps/lookups/networker_action/adapters.py:46-48 | an index is readable exactly when it is one of seven families, a four-digit year and a month |
| ReadAdapter.ChainsAdvance | apps/lookups/networker_action/adapters.py:60-78 | in a complete chain every page but the last has hits and a fresh cursor, and the next request carries that cursor, the same size and the point in time then current |
| ReadAdapter.ChainPagesAreWhole | apps/lookups/networker_action/adapters.py:64-77 | in a complete chain no page timed out, lost a shard, ended early or lacks a source |
| ReadAdapter.BrokenPagesSayWhy | apps/lookups/networker_action/adapters.py:64-76 | each error of a page has its ground in the reply |
| ReadAdapter.RepeatedCursorsAreRefused | apps/lookups/networker_action/adapters.py:71-73 | a page that ends without a cursor or where it began is refused |
| ReadAdapter.LatestPitIsLastNamed | apps/lookups/networker_action/adapters.py:63-81 | the point in time that is closed is the one the last reply to name any named, or the one opened |
| Scheduler.CollectorScheduler.constructor | apps/scheduler.py:22-31 | all loops sleep, the lock is free, nothing has finished |
| Scheduler.CollectorScheduler.CooldownEnd | apps/scheduler.py:154-165 | what is left of the spacing since the last section finished, if anything |
| Scheduler.CollectorScheduler.Wake | apps/scheduler.py:127-146 | the whole new state when a loop wakes: the jobs class skips a taken lock, a free lock without waiters is taken, otherwise the loop queues |
| Scheduler.CollectorScheduler.Resume | apps/scheduler.py:145-146 | the first waiter takes a released lock and cools down |
| Scheduler.CollectorScheduler.Collect | apps/clients/networker_rest_client.py:94-104 | the first planned request is sent, or there is none |
| Scheduler.CollectorScheduler.Complete | apps/clients/networker_rest_client.py:94-108 | a request that ended, well or badly, is followed by a pause of the spacing, by the next one where there is no spacing, or by writing |
| Scheduler.CollectorScheduler.Finish | apps/scheduler.py:149-152 | the time is noted and the lock released or handed to its first waiter |
| Scheduler.StepIsOrderly | apps/scheduler.py:96-152 | every step keeps the lock, the queue and the phases of the loops consistent |
| Scheduler.StepIsSpaced | apps/scheduler.py:145-165 | every step keeps the requests made so far apart, and the next one due late enough |
| Scheduler.SectionsExclude | apps/scheduler.py:127-152 | in every interleaving at most one collect-and-write section is active |
| Scheduler.WaitersAreBounded | apps/scheduler.py:132-145 | lock waiters never exceed the number of classes minus one |
| Scheduler.WaitersAreServedInOrder | apps/scheduler.py:145 | no wake-up is lost, and the lock is given in the order in which it was asked for |
| Scheduler.QueueOnlyAdvances | apps/scheduler.py:145 | what was asked for and what was entered is never revised, so a waiter is overtaken by none that asked later |
| Scheduler.RequestsAreSpaced | apps/clients/networker_rest_client.py:94-108 | two consecutive planned requests, in one collection or two, after success or failure, keep the spacing from the end of one to the start of the next |
| Scheduler.CollectorScheduler.Drive | apps/scheduler.py:96-152 | the object, taking its steps in any order of events, reaches the state of the run |
| Scheduler.Operate | apps/scheduler.py:96-165 | an object driven from its start through any events has at most one active section, a bounded queue, and requests kept apart |
| Scheduler.RequestRateIsBounded | apps/scheduler.py:154-165 | n requests further on at least n spacings have passed |
| Scheduler.SpacingIsAttained | apps/scheduler.py:154-165 | the spacing is attained across two sections of different classes |
| Scheduler.SectionsSendTheirPlan | apps/clients/networker_rest_client.py:94-108 | under every interleaving, from the event that opens a section with n planned requests to its writing exactly n requests were added to the log and each is done; while it sends, as many are left as are owed |
| Scheduler.WakingExactly | apps/scheduler.py:132-145 | at a held lock a jobs wake-up neither queues nor enters and that of every other class queues, at a free lock every one enters, at a lock being handed over every one queues; nothing else changes |
| Scheduler.SleepsLast | apps/scheduler.py:102-112 | a loop leaves a sleep, a cooldown or a pause only when its time has come |
| Scheduler.RunsArePrompt | apps/scheduler.py:154-165 | no run waits longer than the spacing asks: pauses and cooldowns end as soon as they may |
| Schedule.NextRunIsLeastSlot | apps/scheduler.py:202-218 | for every valid schedule and instant the delay is positive and at most one interval, and ends at the least slot of the day's progression strictly after now |
| Schedule.SlotsAreGlobalIffDividing | apps/scheduler.py:209-215 | the progression is the same for all days if and only if the interval divides 1440 |
| Schedule.NextRunIsLeastGlobalSlot | apps/scheduler.py:202-218 | when the interval divides 1440 the next run is the least slot after now, across midnights |
| Schedule.EvenlySpacedExactly | apps/scheduler.py:202-218 | exact wake-ups are one interval apart from every start if and only if the interval divides 1440, or is whole days with the offset within the first |
| Schedule.SevenMinutesAreUneven | apps/scheduler.py:202-218 | an interval of seven minutes does not survive midnight |
| Schedule.UntilNextRun | apps/core/config.py:27-35 | there is an error exactly for invalid schedules |
| Schedule.RefusedExactly | apps/core/config.py:27-35 | a schedule is refused exactly for an interval below one minute, an offset outside it, or no second of a minute |
| Schedule.RunsOnItsSecond | apps/scheduler.py:209-218 | every run falls on the schedule's second of a minute |
| Schedule.RunsOnItsOffset | apps/scheduler.py:209-218 | when the interval divides the day a run is whole intervals, the offset and the second after a midnight |
| Windows.NoGapExactly | apps/clients/networker_rest_client.py:211-224 | collections in order leave no whole second out if and only if each window starts no later than the second after the last one ended |
| Windows.WindowsApartLeaveNoGap | apps/clients/networker_rest_client.py:280-285 | collections at most a window apart leave no gap, although both ends are truncated to seconds |
| Schedule.LoopKeepsInterval | apps/scheduler.py:102-112 | a loop whose run ends before its next slot, and for whole days on its own day, runs next one interval after its slot |
| Schedule.FirstRunIsOwnSlot | apps/scheduler.py:202-218 | from wherever a loop starts, its first run is a slot of its own day |
| Windows.LoopMissesNoSlot | apps/scheduler.py:102-112 | a loop that looks at the clock when each run has finished runs in every slot if its runs end in time |
| Windows.ScheduleLeavesNoGap | apps/clients/networker_rest_client.py:83-90 | such a loop, with collections starting within window minus interval of their slot, leaves no gap |
| Windows.BuildRequestPlan | apps/clients/networker_rest_client.py:227-270 | one request per endpoint, in order: jobs by endTime over the jobs window, backups by saveTime over the backups window, and the fields of clients and policies |
| Windows.PlansExactly | apps/clients/networker_rest_client.py:211-281 | a plan asks for jobs by endTime over the jobs window and for backups by saveTime over the backups window, each ending at the whole second of now; for others without a time; with the fields of clients always, of policies on demand |
| Windows.PlansLeaveNoGap | apps/clients/networker_rest_client.py:211-281 | the plans of a loop that runs in its slots ask for every whole second of an endpoint, jobs or backups, from the start of the first window to the last collection |
| Windows.ClassesCoverEndpoints | apps/clients/networker_rest_client.py:201-208 | each class asks for its own endpoints, and the fast and the slow one together for all four that are known |
| Windows.GetJson | apps/clients/networker_rest_client.py:130-194 | the result is that of the deciding attempt, the first that may not be retried or the last allowed, after waits that double each time |
| Windows.DecisionIsUnique | apps/clients/networker_rest_client.py:138-194 | no two attempts decide one request |
| Windows.DecidesExactly | apps/clients/networker_rest_client.py:171-194 | only timeouts, status 429 and server errors are retried, and the last attempt decides in any case |
| Windows.TimeoutsUseAllRetries | apps/clients/networker_rest_client.py:138-139 | a request that always times out is sent once and then as often as there are retries |
| Windows.FetchPayloads | apps/clients/networker_rest_client.py:83-125 | every endpoint ends in exactly one of responses and errors with what its own request came to, whatever fails; the payload lists the responses in endpoint order; a pause lies between any two requests |
| Windows.AnsweredExactly | apps/clients/networker_rest_client.py:273-277 | the payload holds exactly the endpoints that answered, each with its response, in the order of configuration |
| EventIndex.EmitBackups | apps/processors/derived.py:44-80 | the documents of the identifiable backups of a collection, in order, each with its id, index, identity source and event time |
| EventIndex.EmitJobRuns | apps/processors/derived.py:107-166 | the documents of the datable job runs of a collection, in order, each with its id, index, event time, outcome, duration and workflow run |
| EventIndex.BackupIdentityIsExact | apps/processors/derived.py:83-104 | any two identifiable backups share a document id exactly when they have the same API id, or none and the same joined text, or the API id of one spells the fallback id of the other |
| EventIndex.OrdinaryIdentityIsExact | apps/processors/derived.py:83-104 | without such API ids and without NUL in names: exactly when they have the same API id, or none and the same client, save set and completion |
| EventIndex.ApiIdCanSpellFallback | apps/processors/derived.py:87-104 | for every backup with a fallback id there is an API id with the same document id |
| EventIndex.SeparatorsCanCollide | apps/processors/derived.py:96-104 | two backups of different clients and save sets, one with a NUL in the client's name, with the same document id |
| EventIndex.WorkflowRunKeyIsExact | apps/processors/derived.py:169-188 | jobs that name a workflow run name the same one exactly when source and run id agree |
| EventIndex.ActionsAreExact | apps/writers/elasticsearch.py:120-131 | each record with an identity and an event time gives an action, and nothing else does |
| EventIndex.IndexNameIsExact | apps/writers/elasticsearch.py:120-131 | index names of one kind coincide exactly for the same domain and month |
| EventIndex.BackupAddressIsExact | apps/writers/elasticsearch.py:120-131 | deliveries of a backup share their document exactly when identity, domain and routed month agree |
| EventIndex.JobAddressIsExact | apps/processors/derived.py:137-166 | deliveries of a job share their document exactly when id, domain and routed month of the run agree |
| EventIndex.IndexedIsLastWrite | apps/writers/elasticsearch.py:102-131 | the index holds at an address the last version written there |
| EventIndex.OneDocumentExactly | apps/writers/elasticsearch.py:211-222 | the index holds an event's last version; and one document for it if and only if all its versions were routed to one index |
| EventIndex.BackupIsHeldOnceExactly | apps/processors/derived.py:44-80 | over any collections of one collector, a delivered backup has exactly one document if and only if all its deliveries agree on the domain and on the month of the event time |
| EventIndex.JobIsHeldOnceExactly | apps/processors/derived.py:107-166 | likewise for a job, if and only if its deliveries agree on the domain and on the month of the start, or of the end without one |
| EventIndex.BytesCountOnce | apps/writers/elasticsearch.py:120-131 | when no event changes its route the indexed bytes are those of the distinct events, once each |
| EventIndex.OverlapIsHarmless | apps/processors/derived.py:44-166 | any sequence of overlapping collections, of jobs with a fixed start and backups with a fixed id and event time, leaves one document per event holding its last version, and sums each backup once |
| EventIndex.LateCompletionIsHeldTwice | apps/processors/derived.py:55-67 | a backup first seen by its save time and completed in another month has more than one document |
| EventIndex.IndexOfDomain | apps/writers/elasticsearch.py:199-203 | the index of a domain is nw-core-, nw-chnl- or nw-info- exactly for those three names, whatever their case, and nw-unmapped- for every other |
| EventIndex.MonthsUsed | apps/writers/elasticsearch.py:211-222 | a month is used where it reads as a four-digit year and a month of it, else that of the collection |
| EventIndex.BackupIsIdentified | apps/processors/derived.py:83-104 | a backup is identified by its own id, or by client, save set or name, and completion where it has all three |
| EventIndex.ClientsCompare | apps/processors/derived.py:96-104 | a client is compared without surrounding white space, capitals and final dots |
| EventIndex.BackupIsDated | apps/processors/derived.py:44-80 | an identified backup with a completion or a save time is indexed once, under the month of the completion, else of the save time |
| EventIndex.JobRunIsDated | apps/processors/derived.py:107-166 | a job run is dated by its start while it runs and by its end afterwards, filed under the month of its start, with its duration in whole seconds where it does not run backwards |
| EventIndex.WorkflowRunsAreNamed | apps/processors/derived.py:169-188 | a job names a workflow run exactly when its source is one plain word, its type is one of three, and the id that type looks to is a positive number |
| Report.BuildMonthlyReport | apps/parsers/networker_rest_parser.py:268-344 | the rows after workflows, backups and jobs, in order of first mention, with the clients of their domain |
| Report.GroupClients | apps/parsers/networker_rest_parser.py:275-278 | the distinct named clients of each domain |
| Report.RowsConserve | apps/parsers/networker_rest_parser.py:299-338 | whatever scope and measure is summed, the rows hold what their records are worth: nothing is lost or counted twice |
| Report.RowsAreKeyed | apps/parsers/networker_rest_parser.py:280-334 | no key has two rows, each row carries its own key, and the keys are those of the records |
| Report.Tally | apps/parsers/networker_rest_parser.py:222-244 | counting keys: each key that occurs, with the number of its occurrences |
| Report.Nest | apps/parsers/networker_rest_parser.py:360-364 | nesting by domain keeps every count and adds none |
| Report.BuildSummary | apps/parsers/networker_rest_parser.py:214-265 | the totals, for each status the counts of the jobs by policy and nested by domain, and the first twenty failed jobs |
| Report.RowsAddUpToSummary | apps/parsers/networker_rest_parser.py:268-344 | for each domain and policy the rows of all workflows add up to the summary's success, failed, running and workflow counts |
| Report.RowsAddUpToPolicies | apps/parsers/networker_rest_parser.py:222-225 | for each policy its rows in all domains add up to the summary's counts by policy alone |
| Report.RowsHoldAllBytes | apps/parsers/networker_rest_parser.py:311-321 | the rows together hold the summary's total bytes, and every workflow once |
| Report.RowsCountExactly | apps/parsers/networker_rest_parser.py:280-338 | a row counts the jobs of its domain, policy and workflow by status, their workflows, the bytes of their backups, and the distinct named clients of its domain |
| Report.RowsNameLastSource | apps/parsers/networker_rest_parser.py:299-334 | a row names the source of the last record under its key |
| Report.RowsStandInOrder | apps/parsers/networker_rest_parser.py:299-334 | rows stand in the order in which their keys were first mentioned |
| Report.FailuresInOrder | apps/parsers/networker_rest_parser.py:214-265 | the failed jobs are all those that failed, once each and in order |
| Xml.LocalTag | apps/clients/i6000_rest_client.py:133 | the part of the tag after its last closing brace |
| Xml.XmlToObj | apps/clients/i6000_rest_client.py:132-147 | the recursive conversion, as the loop over children with its growing dictionary does it |
| Xml.Search | apps/parsers/i6000_rest_parser.py:245-255 | the recursive search, as its loops do it |
| Xml.CollectedGives | apps/clients/i6000_rest_client.py:141-146 | collecting repeated siblings in a list changes nothing for the search |
| Xml.SearchCountsElements | apps/parsers/i6000_rest_parser.py:245-255 | for every tree and key the search finds, as a multiset, the converted value of each element whose local tag matches without regard to case, one per element |
| Xml.SegmentSlotCount | apps/parsers/i6000_rest_parser.py:235-242 | the slots of the segments found |
| Xml.SlotsAreThoseOfSegments | apps/parsers/i6000_rest_parser.py:235-242 | the slot count of a converted document is that of its segment elements, wherever they lie |
| Xml.ElementsConvert | apps/clients/i6000_rest_client.py:132-147 | an element without children becomes its stripped text; one with children a dictionary in which each tag has its child's value, or the list of its children's values in order |
| Xml.SegmentsHaveSlots | apps/parsers/i6000_rest_parser.py:235-242 | a segment without children has no slots, one with a single readable size that many, any other one |
| Xml.SearchIgnoresCase | apps/parsers/i6000_rest_parser.py:245-255 | an element is found exactly when its name, after any namespace, is the key letter by letter up to case |

## Left out

- Scheduler.CollectorScheduler.Wake: what the loops do between two await points is a method each, so tasks and the endless loop itself are not objects; cancellation by `stop`, other collectors, recorded results, and `run_once`, which takes no lock, are not modelled.
- Scheduler.RequestsAreSpaced: speaks of planned requests; retries of one request follow their own backoff and lie inside it.
- Extract.ExtractBackup: the copy of the entry kept in an issue, and fields of an attribute beside key and values, are not carried.
- Extract.ExtractRaw: a `collection_status` that is a list or an object, which the source cannot look up in a set, is not treated as an exception, and the copy of the hit kept in an issue is not carried.
- Aggregate.ActionLookupBuilder.BuildDocument: the evidence state and the joined reason text, and the order of backup references, are not modelled; documents and records are values, so copying and aliasing are not either.
- Store.InMemoryLookupStore.Inspect: documents are visited in an arbitrary order, so which of several faults is reported is not determined.
- Schedule.UntilNextRun: gives the delay as an exact number of microseconds, where the source gives a floating-point number of seconds.
- ReadAdapter.ElasticsearchReadAdapter.ReadBatch: replies are decoded to their flags, shard count and hits; the query body and the keep-alive arguments are not modelled.
- Windows.FetchPayloads: the query window echoed in the payload is not modelled.
- EventIndex.EmitBackups: the texts of times and the nested copies of fields inside a document are not modelled, here and in job runs.
- EventIndex.OverlapIsHarmless: covers the backup and job-run documents; raw, current, job, client and policy documents are not modelled. Years before 1000, whose month text has another length, are excluded by assumption.
- Report.BuildMonthlyReport: the month, the server and the rounded terabytes of a row, and the normalization of raw records, are not modelled.
- Unicode white space and case folding, ISO and number parsing, and JSON encoding are not modelled.
- The DD, DXi and ZFS parsers, transports, TLS, HTTP routes, metrics, logging, configuration loading and shell tokenization are not modelled.

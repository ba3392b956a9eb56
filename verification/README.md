# Verification of vulns-news

A Dafny model of the deterministic core of the repository, with proofs about it. The model keeps the
program's own shape: what updates a map, a slice, a cursor or a job in place is a class or a loop here
too, proved against a specification; what only computes is a function. I/O, clocks, clients and
cancellation are parameters that may behave in any way unless a statement says otherwise.

| module | what it models |
|---|---|
| `DirectoryCache` | the directory enumeration cache shared by the profilers |
| `UnionFind`, `AliasLinks`, `AdvisoryGroups`, `GroupClaims`, `GroupOrder` | alias groups of advisory records, a union-find with path compression, and when the order of a map shows |
| `ScanTypes`, `ScanReport`, `ScanSummary`, `ScanValidate`, `ScanAccepted` | scan records, the query plan, summaries, and what a saved scan must satisfy |
| `ScanDiscovery`, `ScanEnrichment`, `ScanRun`, `ScanClaims` | producing a scan report from any client behaviour, and what the report claims about the clients |
| `ScanHistory`, `HistoryClaims`, `ScanLog` | retained evidence, change lists, the decision to save, and chains of baselines |
| `AnalysisTypes`, `AnalysisRun`, `AnalysisClaims` | the checkpointed, resumable analysis run and its relevance routing |
| `Assessment`, `AssessmentClaims`, `HitEvidence`, `Preparation`, `PreparationClaims` | the deterministic assessment, and the candidates prepared for it |
| `ScanJobs`, `LiveService` | the two job schedulers as state machines over their locked sections |
| `SemVer`, `SemVerOrder`, `VersionRanges` | semantic version precedence, and three-valued range evaluation |
| `OsvPaging`, `OsvChains`, `OsvDiscovery`, `IdLists`, `OsvCache` | batched OSV paging, its requests and results, and the single-flight response cache |
| `NvdRecords`, `NvdFetch`, `NvdLatest` | the two ways of retrieving the newest NVD records |
| `PomExpand` | bounded expansion of Maven properties |
| `ReportLifecycle` | report tracking and its restoration from session storage |
| `Text`, `Strings` | string order, sorting, splitting and trimming |

The modules named `...Claims`, `ScanAccepted`, `OsvChains` and `SemVerOrder` say once more what the operations
next to them achieve, in terms of inputs and outputs alone, without the functions the operations compute with.

`dafny verify dfyconfig.toml` checks everything.

## Where the code and its intent differ

* A failed NVD lookup is recorded with the text of its error, and `validateState` insists on a text.
  A client whose error has an empty text therefore makes `Run` build a report that cannot be saved.
  `ScanRun.Run` states that this is the only way; `ScanRun.SilentRunRejected` gives an input.
* `groupRecords` sorts groups by their identifiers joined with NUL. Two groups of unvalidated records
  may join to the same text, and then the order of a map shows. `GroupOrder.OrderDeterminedIff`
  says exactly when; validated identifiers exclude it.
* `Changes` reports no removals for an incomplete refresh, while `RetainEvidence` keeps only NVD
  records, so OSV records leave without an event there: `ScanLog.IncompleteDropsSilently` gives one.
  `Save` accepts complete refreshes only, but also a report that remembers an NVD record its baseline
  does not know, for which there is no event either: `ScanLog.MemoryIsAccepted` gives one.
  `ScanLog.ReplayIsNextIff` says for one comparison exactly when log and baseline agree, and
  `ScanLog.LogTellsKeysIff` for a chain of saves; the command, which retains evidence of the baseline
  only, always meets the condition (`ScanLog.MonitorLogIsExact`).
* A batch request whose transport fails with an empty error text leaves its queries neither complete
  nor in error. `OsvPaging.CompleteXorError` says that nothing else does; `OsvPaging.MuteLeavesNothing`
  gives such a call.
* A lifecycle whose end of tracking lies after the year 9999 cannot be restored, because stored dates
  have four-digit years. `ReportLifecycle.StoredIsRestored` says exactly when it can;
  `ReportLifecycle.LateIsNotRestored` gives one that cannot.

## Model

| member | source | states |
|---|---|---|
| `DirectoryCache.RunCalls` | src/traversal/cache.go:94-184 | any interleaving of calls over several files of shared directories, with any batch sizes and limits: every answer, end of directory included, is the one the bare file would give, and every file ends where its caller thinks it is |
| `DirectoryCache.AsNativeIsNativeRun` | src/traversal/cache.go:94-100 | a run answered as by bare files is, when no Stat fails, equal to the run on the bare files |
| `DirectoryCache.ReceivedIsTheStretch` | src/traversal/cache.go:46-53 | what one caller received, joined, is exactly the stretch of the directory it moved over: nothing lost, repeated or reordered by other files' calls |
| `DirectoryCache.Cache.ReadDir` | src/traversal/cache.go:101-184 | one call equals the native call at the caller's logical position; a failing Stat changes nothing; a complete directory costs no physical read; other files keep their cursors |
| `DirectoryCache.Cache.ReadCached` | src/traversal/cache.go:127-184 | the same for a file with a cursor, keeping stored entries a prefix of the directory, physical at most logical, and the entry count exact and within its limit |
| `DirectoryCache.Cache.Serve` | src/traversal/cache.go:127-148 | an answer from storage alone moves only the logical position and reads nothing |
| `DirectoryCache.Cache.ReadOn` | src/traversal/cache.go:149-184 | behind a stored first part the call catches up, reads on, answers natively and records what it read |
| `DirectoryCache.Cache.ReadBehind` | src/traversal/cache.go:149-184 | catching up and reading on returns the native answer for the whole batch |
| `DirectoryCache.Cache.CatchUp` | src/traversal/cache.go:149-161 | the bounded skips end with the descriptor exactly at the logical position |
| `DirectoryCache.Locate` | src/traversal/cache.go:105-126 | a file gets a cursor unless the cursor limit is reached or the directory was replaced, and then it is always read directly |
| `DirectoryCache.StoredReadIsNative` | src/traversal/cache.go:127-148 | an answer taken from storage alone is the native one; any other is a proper first part of it |
| `DirectoryCache.AbsorbIsFaithful` | src/traversal/cache.go:166-182 | what is stored stays a prefix of the directory under any cap, and complete is set only when all of it is stored |
| `DirectoryCache.FinishIsNative` | src/traversal/cache.go:183-191 | stored part and fresh part with the adjusted end of directory are one native answer |
| `DirectoryCache.CompletedIsConsistent` | src/traversal/cache.go:162-182 | recording a completed read keeps every cursor and directory consistent with the listings |
| `DirectoryCache.CompletedIsCounted` | src/traversal/cache.go:171-178 | EntriesCached stays the sum of the stored lengths and within the entry limit |
| `UnionFind.Root` | src/reposcan/run.go:268-278 | finding a root terminates, and path compression changes no identifier's root |
| `UnionFind.Find` | src/reposcan/run.go:268-278 | the same with identifiers seen for the first time, which become their own roots |
| `UnionFind.Join` | src/reposcan/run.go:289-292 | joining two roots renames one of them everywhere and moves nothing else |
| `AdvisoryGroups.GroupRecords` | src/reposcan/run.go:265-318 | the groups are the connected components of the record and alias graph, each with its record keys and identifiers, in key order, however the maps are walked |
| `AliasLinks.RepIsComponent` | src/reposcan/run.go:284-295 | two identifiers have the same root exactly when a chain of aliases links them |
| `AdvisoryGroups.SharedIffLinked` | src/reposcan/run.go:284-304 | two records share a group exactly when a chain of valid aliases links them |
| `AdvisoryGroups.KeyInOneGroup` | src/reposcan/run.go:296-304 | every record key is in exactly one group |
| `AdvisoryGroups.IdInOneGroup` | src/reposcan/run.go:305-310 | every record identifier and valid alias is in exactly one group |
| `GroupOrder.GroupingUnique` | src/reposcan/run.go:311-317 | when keys of groups can be told apart there is one answer, so map order cannot show |
| `GroupOrder.OrderDeterminedIff` | src/reposcan/run.go:316 | the output is independent of map order if and only if no two groups join to the same sort key |
| `GroupOrder.NulFreeTellsApart` | src/reposcan/run.go:316 | identifiers without NUL, which validated ones are, always tell the groups apart |
| `GroupOrder.NulMakesTwoAnswers` | src/reposcan/run.go:316 | two records, one with a NUL in its identifier, and two different groupings of them that are both correct answers |
| `GroupClaims.GroupingIff` | src/reposcan/run.go:284-317 | the groups in terms of the records alone: two records share one exactly when a list of identifiers leads from the one to the other, each and the next being the identifier and a valid alias of one record; sorted, each once, none left out |
| `ScanReport.Plan` | src/reposcan/plan.go:75-109 | every query the components ask for, once, in the order of its encoding; its origins are exactly the components that ask for it, each as often as in the profile, none sorting before an earlier one, equal ones in profile order; every other component with its reason, in profile order |
| `ScanReport.PlanUnique` | src/reposcan/plan.go:72-74 | planning is deterministic: a profile has one plan |
| `ScanReport.PlanIff` | src/reposcan/plan.go:75-109 | a list is the plan exactly when it holds every query that some component asks for, in order of encodings, its origins sorted stably and counted, and the others with their reasons, walk and sort left out |
| `ScanReport.PlanLists` | src/reposcan/plan.go:94-108 | of every plan: no origin sorts before an earlier one, the multiset of origins is that of the components asking for the query, and origins with equal keys stand in profile order |
| `ScanSummary.Summarize` | src/reposcan/run.go:320-357 | one summary per ecosystem named anywhere, in order, with exact counts and a completeness that nothing missing leaves true |
| `ScanSummary.SummaryUnique` | src/reposcan/run.go:320-357 | a report has one summary list |
| `ScanSummary.SummaryIff` | src/reposcan/run.go:320-357 | the summaries of a report are exactly one per named ecosystem, in order, with the numbers of its components, queries and unqueried components and complete exactly when nothing of it is missing |
| `Text.Unique` | src/reposcan/plan.go:115-128 | the distinct non-empty values in order |
| `Text.SortKeys` | src/scananalyze/prepare.go:540-547 | the keys of a map sorted: one list whatever order they come in |
| `Text.AscendingUnique` | src/reposcan/plan.go:115-128 | a strictly sorted list is determined by its elements |
| `Text.LessIff` | src/reposcan/plan.go:115-128 | the order of texts: the first difference decides, and a proper beginning comes first |
| `Strings.ValidTextIff` | src/reposcan/plan.go:19-21 | accepted identifiers: not empty, no white space at either end, no control character |
| `Strings.CVEIff` | src/reposcan/run.go:18 | a CVE identifier is CVE-, four digits, a hyphen and at least four digits |
| `ScanValidate.ValidateState` | src/reposcan/state.go:14-173 | accepts exactly the states whose header, plan coverage, raw-record evidence, groups, lookups, retained records, summaries and warnings agree |
| `ScanAccepted.AcceptedIff` | src/reposcan/state.go:14-173 | a state passes the seven checks exactly when its queries, evidence, records, groups, lookups, memory, summaries and warnings are as said of the state alone, with no function that the checks compute with |
| `ScanValidate.MatchAdvisory` | src/reposcan/run.go:171-197 | the evidence of one advisory for one package: withdrawn, affected with the distinct fixed versions of exactly this package, or unknown with a reason |
| `ScanValidate.CheckQuery` | src/reposcan/state.go:35-78 | a saved query is accepted exactly when its matches and outcome are recomputable from the raw records |
| `ScanValidate.CheckRecord` | src/reposcan/state.go:175-196 | a source record is accepted exactly when key, identity and metadata agree with its raw document |
| `ScanValidate.CheckRecords` | src/reposcan/state.go:85-100 | all records are checked, and the CVEs that OSV records mention are collected |
| `ScanValidate.CheckEnrichments` | src/reposcan/state.go:104-141 | one well-formed lookup per mentioned CVE, none else, each agreeing with the current NVD records |
| `ScanValidate.NvdAbsences` | src/reposcan/changes.go:60-79 | the CVEs a complete refresh has shown to be absent; none when any NVD lookup was left out |
| `ScanValidate.CheckRetained` | src/reposcan/state.go:142-156 | retained records are valid NVD records, neither current nor known to be absent |
| `ScanValidate.CheckGroups` | src/reposcan/state.go:101-103 | for valid records the recomputed grouping equals the saved one exactly when the saved one is a grouping |
| `ScanValidate.ValidRecordsTellApart` | src/reposcan/state.go:175-178 | validated identifiers contain no control characters, so their grouping is unique |
| `ScanRun.Run` | src/reposcan/run.go:41-169 | for every valid profile, client behaviour and cancellation with an orderly clock, the report is accepted by validateState if and only if no failed NVD lookup for a CVE of a served advisory has an empty text; each lookup result is the one that the client's answer tells (not_found exactly for a missing CVE, found exactly for a document of that CVE, an error otherwise), refresh completeness follows from these answers, and the documents come from the clients |
| `ScanRun.RunIsValid` | src/reposcan/run.go:41-169 | a finished report stands up to every check of validateState; only an empty failure text can spoil it |
| `ScanRun.RunIsBuilt` | src/reposcan/run.go:61-169 | identifiers, completeness, the documents on record, lookups and the two completeness claims of the report follow from what the clients answered |
| `ScanClaims.LookupsAreAnswers` | src/reposcan/run.go:206-263 | every CVE of a served advisory is looked up, once and in order, and nothing else; not_checked exactly without NVD, and otherwise with a fine interval not_found exactly when the client has none, found exactly for a document of this very CVE, failed in every other case |
| `ScanClaims.PackagesAreAnswers` | src/reposcan/run.go:86-160 | what is reported of a package, said of its answer and the served advisories: its identifiers, its matches with their fixed versions, and its outcome |
| `ScanClaims.RefreshCompleteIff` | src/reposcan/run.go:61-169 | the refresh is complete exactly when every package was answered in full, every advisory it names was served and about it, and no lookup failed, all said of the client answers; the scan is complete when besides nothing was left unqueried or warned about |
| `ScanClaims.RecordsAreDocuments` | src/reposcan/run.go:114-263 | on record are exactly the served advisories and the CVEs with a document, each as it was served |
| `ScanClaims.FailuresAreReported` | src/reposcan/run.go:114-133 | an advisory that could not be had leaves the client's text in the result of every package that names it |
| `ScanClaims.AnswersAreReported` | src/reposcan/run.go:86-109 | a package's result carries the error of its answer, a complaint if an identifier of it is not valid text, and says incomplete when the answer is and nothing else is wrong |
| `ScanClaims.RememberedIff` | src/reposcan/changes.go:20-79 | run and retention together: of the NVD records the previous report had, exactly those are kept that were not found again and that no complete refresh was told to be missing |
| `ScanClaims.AbsentIsForgotten` | src/reposcan/changes.go:60-79 | after a complete refresh whose client has no document of a CVE of a served advisory, no record of it is kept |
| `ScanClaims.FailedIsRemembered` | src/reposcan/changes.go:20-47 | a CVE whose lookup failed keeps the record it had |
| `ScanDiscovery.RunQueries` | src/reposcan/run.go:80-160 | each package's result agrees with its answer and its advisories; each advisory on record is the document that was served for it, with its aliases and its withdrawal |
| `ScanDiscovery.RecordedCVEs` | src/reposcan/run.go:207-214 | the CVEs to look up are exactly those that the served advisories go by |
| `ScanDiscovery.RunQuery` | src/reposcan/run.go:86-159 | a package is complete exactly when its answer is usable and every advisory it names loads and is about it |
| `ScanDiscovery.ReadEvidence` | src/reposcan/run.go:110-150 | reading the advisories keeps matches, completeness and errors in step |
| `ScanDiscovery.Load` | src/reposcan/run.go:114-133 | an advisory is fetched at most once; success and failure are both remembered |
| `ScanEnrichment.Enrich` | src/reposcan/run.go:206-263 | one lookup result per CVE, with a record exactly for the found ones, holding the document that was looked up; what each result is, is said by ScanClaims.LookupsAreAnswers |
| `ScanEnrichment.EnrichedDocuments` | src/reposcan/run.go:114-263 | the records after a run are the served advisories and the found CVEs, each with its own document, and nothing else |
| `ScanEnrichment.DocumentsUnique` | src/reposcan/run.go:114-263 | there is one such map of records |
| `ScanEnrichment.CVEsToLookUp` | src/reposcan/run.go:207-214 | the CVEs of all records and aliases, in order, once |
| `ScanEnrichment.EnrichmentsValidIff` | src/reposcan/run.go:215-262 | the lookups pass validation exactly when every failure has a text |
| `ScanRun.SilentFailureRejected` | src/reposcan/run.go:241-244 | a lookup failing with an empty text makes the report one that cannot be saved |
| `ScanRun.SilentRunRejected` | src/reposcan/run.go:241-244 | a concrete profile and client for which Run builds a rejected report |
| `ScanHistory.RetainEvidence` | src/reposcan/changes.go:20-47 | the retained records are exactly the remembered NVD records that are neither current nor known to be absent; nothing else of the report changes |
| `ScanHistory.RetainIdempotent` | src/reposcan/changes.go:10-19 | retaining twice is retaining once |
| `ScanHistory.RetainedApart` | src/reposcan/changes.go:20-47 | retained records are disjoint from current records and from authoritative absences |
| `ScanHistory.RetainStaysValid` | src/reposcan/changes.go:15-19 | two reports that pass validation combine into one that passes |
| `ScanHistory.Save` | src/reposcan/state.go:227-258 | writes exactly when the state is valid and the baseline is absent, or valid, of the same profile and the refresh complete; what is written is valid, so the second check never refuses |
| `ScanHistory.WrittenIsValid` | src/reposcan/state.go:255-258 | whatever is written over a baseline loads again |
| `ScanHistory.Changes` | src/reposcan/changes.go:86-146 | the list holds exactly the additions, modifications, proven removals and query changes, in key order |
| `ScanHistory.ChangesUnique` | src/reposcan/changes.go:139-145 | there is one such list, so map order cannot show |
| `ScanHistory.ChangesApart` | src/reposcan/changes.go:139-145 | no two events of one comparison share a key |
| `ScanHistory.CompareQueries` | src/reposcan/changes.go:122-138 | the striking-off loop reports exactly new and different results and leaves exactly the queries no longer asked |
| `HistoryClaims.KeptIff` | src/reposcan/changes.go:20-47 | said of the two reports alone: a record is remembered exactly when it is an NVD record known before, not observed now, and no complete refresh with every NVD lookup made was told that it is missing |
| `HistoryClaims.RecordEventsAre` | src/reposcan/changes.go:86-119 | exactly which records a change list reports as added, modified and no longer observed |
| `HistoryClaims.QueryEventsAre` | src/reposcan/changes.go:120-138 | exactly which queries it reports as changed or dropped |
| `HistoryClaims.SameAgainIsSilent` | src/reposcan/changes.go:86-146 | comparing a valid report with itself reports nothing, remembered records included |
| `ScanLog.ReplayIsNextIff` | src/reposcan/changes.go:80-119 | replaying one comparison gives the keys of the next baseline if and only if the report brings no memories of its own and is complete or still sees every OSV record |
| `ScanLog.LogTellsKeys` | src/reposcan/state.go:218-258 | over any chain of accepted and refused saves, replaying the acknowledged events on the first baseline's keys gives the keys of the last, if no save adds memories its baseline does not know; a refused save acknowledges no events here, although the command prints the changes of an incomplete refresh too |
| `ScanLog.LogTellsKeysIff` | src/reposcan/state.go:218-258 | the log tells the keys of every baseline of a chain if and only if no accepted save adds memories of its own |
| `ScanLog.MonitorLogIsExact` | cmd/repo-scan/main.go:207-227 | in the order of the command, evidence retained, changes compared, report saved, the log of saved refreshes is exact: it tells the keys and every event fits; refused runs acknowledge nothing |
| `ScanLog.MonitorSavesItsReport` | cmd/repo-scan/main.go:207-227 | saving a report that already retains the evidence of its baseline changes nothing of it |
| `ScanLog.MemoryIsAccepted` | src/reposcan/state.go:227-258 | a complete, valid report with a memory its baseline lacks, which saving accepts and the log does not tell |
| `ScanLog.IncompleteDropsSilently` | src/reposcan/changes.go:80-119 | an incomplete refresh that drops an OSV record without any event |
| `ScanLog.BaselineIsValid` | src/reposcan/state.go:227-258 | every baseline of a chain is valid and of the first one's snapshot |
| `ScanLog.LostOnlyWhenNotFound` | src/reposcan/changes.go:10-13 | an NVD record leaves the baselines only through an accepted refresh with an explicit not_found |
| `ScanLog.LogIsFaithful` | src/reposcan/changes.go:80-119 | over such a chain no acknowledged event adds a key that is there or removes one that is not; refused saves acknowledge none |
| `ScanLog.EventsAlternate` | src/reposcan/changes.go:80-119 | over such a chain the acknowledged added and no_longer_observed events of a key alternate; refused saves acknowledge none |
| `AnalysisTypes.Recount` | src/scananalyze/run.go:265-291 | the counters are those of the entries |
| `AnalysisTypes.ValidateResume` | src/scananalyze/run.go:293-326 | accepts exactly the reports of the same snapshot and options with valid entries and matching counters |
| `AnalysisTypes.ValidateEntry` | src/scananalyze/run.go:328-382 | accepts exactly entries whose checksums, outputs, status and stage fit |
| `AnalysisTypes.CompleteIffFinished` | src/scananalyze/run.go:265-291 | a resumable report is complete exactly when every entry is finished, and then Total = Analyzed + ScreeningOnly + Excluded |
| `AnalysisClaims.ResumableClaims` | src/scananalyze/run.go:107-129 | of every report a run returns or hands out, said of the prepared candidates and the limit: not_selected exactly for the candidates from the limit on, preparation_error exactly for selected ones with an error; selected counts min(limit, candidates), or all without a limit; every counter is the number of entries it names |
| `AnalysisClaims.ResumableIff` | src/scananalyze/run.go:293-382 | the reports that can be resumed: of this snapshot and these options, dated, every candidate standing where its stored and checked outputs have brought it, every counter the number of entries it names |
| `AnalysisClaims.SteadyClaims` | src/scananalyze/run.go:178-219 | without interruption every selected candidate without an error comes to an end, none stays pending |
| `AnalysisRun.Run` | src/scananalyze/run.go:78-219 | refuses before any side effect or hands out and returns only resumable reports, each extending the stored outputs of those before; no stored output is requested again, and no request is made for a candidate from the limit on or one that could not be prepared |
| `AnalysisRun.RunRepeatedly` | src/scananalyze/run.go:78-219 | any number of interrupted runs, each resumed from any report handed out, and a last uninterrupted one end with the entries and counters of one uninterrupted run |
| `AnalysisRun.RunOnce` | src/scananalyze/run.go:78-219 | every report of a possibly interrupted run can be carried on |
| `AnalysisRun.RunEntries` | src/scananalyze/run.go:153-219 | cancellation, model failure, feed failure and checkpoint failure at any moment leave resumable reports |
| `AnalysisRun.Open` | src/scananalyze/run.go:130-151 | a previous report is taken over with its outputs unchanged and its feed items built again |
| `AnalysisRun.Session.RunEntry` | src/scananalyze/run.go:178-217 | one candidate: only its entry changes, nothing stored is lost, and uninterrupted it reaches its one possible end |
| `AnalysisRun.Session.Process` | src/pipeline/pipeline.go:31-68 | relevance routing: excluded, screened only with a feed item, or analyzed only when related |
| `AnalysisRun.Session.Screen` | src/scananalyze/run.go:402-424 | a cached screening is used, a new one validated, stored and saved before use |
| `AnalysisRun.Session.Analyze` | src/scananalyze/run.go:426-448 | the same for the analysis |
| `AnalysisRun.Session.Checkpoint` | src/scananalyze/run.go:153-168 | what is handed to the callback is recounted, dated and resumable |
| `AnalysisRun.CacheIsTransparent` | src/scananalyze/run.go:130-219 | an entry with stored outputs ends where it would end from scratch |
| `AnalysisRun.RebuiltKeeps` | src/scananalyze/run.go:138-151 | rebuilding feed items changes no stored output, and nothing at all of an entry the run itself produced |
| `AnalysisRun.FailingKeeps` | src/scananalyze/run.go:197-199 | a recorded failure is one that validateEntry accepts |
| `AnalysisRun.CompletingKeeps` | src/scananalyze/run.go:200-210 | a recorded success is one that validateEntry accepts |
| `Preparation.PrepareGroup` | src/scananalyze/prepare.go:106-143 | a candidate is drafted exactly when the records of the group pass their checks and every query of it is planned, coherent, proved by the group's documents and pinned; it is emitted exactly when also the snapshot is identified, canonical URL included, and finished, and the processor accepts it; then it is well made and leaves no origin out |
| `Preparation.PreparedIsConfirmed` | src/scananalyze/prepare.go:343-459 | the assessment of an emitted candidate confirms package presence and affected version, for each match and overall |
| `Preparation.MatchIsConfirmed` | src/assessment/assessment.go:132-178 | a match of a well-made candidate resolves and is confirmed without conditions |
| `Preparation.AddOrigin` | src/scananalyze/prepare.go:402-437 | one more origin keeps target identifiers unique, match pairs unique and references resolvable |
| `Preparation.TargetIdsDistinct` | src/scananalyze/prepare.go:426-430 | numbered target identifiers never clash |
| `Preparation.AddQueries` | src/scananalyze/prepare.go:352-448 | every origin of every query becomes a component with a match, and a query is used only with coherent outcome, agreeing matches and documents that prove them |
| `Preparation.ValidScanPrepares` | src/scananalyze/prepare.go:352-448 | for a scan that passes validateState, planning, outcome and documents never keep a hit from being prepared: only its origins can |
| `PreparationClaims.DraftableIff` | src/scananalyze/prepare.go:106-143 | a group is drafted exactly when it is named, its records pass and every query that hits it convinces, said of the queries' matches, documents and origins alone |
| `PreparationClaims.SnapshotIff` | src/scananalyze/prepare.go:144-184 | the snapshot of a candidate is identified, finished and one scan, field by field |
| `PreparationClaims.ValidSnapshot` | src/scananalyze/prepare.go:144-184 | for a scan that passes validateState only a missing URL is left to object to |
| `HitEvidence.CheckEvidence` | src/scananalyze/prepare.go:361-397 | the match loop accepts exactly queries whose matches of one record agree, whose hits are all proved and that have one |
| `HitEvidence.CheckProof` | src/scananalyze/prepare.go:375-394 | a hit is proved by a standing advisory of the group that the query found, that names the package and gives the same fixed versions |
| `HitEvidence.ValidIsEvident` | src/scananalyze/prepare.go:358-400 | every query of a valid saved scan with a hit in the group has that evidence |
| `Preparation.PlannedOrigins` | src/reposcan/plan.go:75-109 | the origins of a planned query are components of the profile that ask for it |
| `Assessment.Assess` | src/assessment/assessment.go:84-205 | per-match and overall verdicts: present if any match is proven, affected if a present one is, cleared only if all are present and unaffected, unknown otherwise |
| `Assessment.AssessMatch` | src/assessment/assessment.go:132-178 | one match: missing, ambiguous or repeated references are unknown; identity and version are judged separately |
| `Assessment.NeverBothWays` | src/assessment/assessment.go:56-58 | a candidate is never cleared while one of its matches is confirmed as affected |
| `AssessmentClaims.ReportClaims` | src/assessment/assessment.go:84-205 | the overall verdicts from the verdicts of the matches: confirmed by any, cleared only by all |
| `AssessmentClaims.ExactIdentifies` | src/assessment/assessment.go:207-225 | which component counts as the very target: same ecosystem and purl, or same ecosystem and full name, as the stated reason says |
| `ScanJobs.StepKeeps` | src/scanjob/manager.go:103-200 | every locked section and channel receive keeps: at most capacity jobs, each unended one in exactly one place, distinct finishing numbers |
| `ScanJobs.RunKeeps` | src/scanjob/manager.go:103-200 | so every reachable state does |
| `ScanJobs.NeverBlocks` | src/scanjob/manager.go:103-130 | in no reachable state can the send under the mutex find the channel full |
| `ScanJobs.SendNeverBlocks` | src/scanjob/manager.go:103-130 | an accepted submission leaves fewer queued jobs than the channel holds |
| `ScanJobs.StepLosesOnlyTheOldest` | src/scanjob/manager.go:113-123 | a job disappears only when there is no room, and then it is the one that finished first; ended jobs never change |
| `ScanJobs.EvictedInOrder` | src/scanjob/manager.go:113-123 | over a whole run jobs are evicted in the order in which they finished |
| `ScanJobs.FirstComeFirstServed` | src/scanjob/manager.go:124-153 | over a whole run jobs are handed to workers in the order in which they were accepted |
| `ScanJobs.ClosedStays` | src/scanjob/manager.go:186-200 | after Close every retained job is terminal, and no step changes a job any more |
| `ScanJobs.Manager.Submit` | src/scanjob/manager.go:103-130 | refused when stopped or full, otherwise one queued job, with the oldest finished one evicted if needed |
| `ScanJobs.Manager.FindOldest` | src/scanjob/manager.go:113-122 | the finished job with the smallest number, in whatever order the map is walked |
| `ScanJobs.Manager.Take` | src/scanjob/manager.go:150-153 | a worker receives the first queued job |
| `ScanJobs.Manager.Begin` | src/scanjob/manager.go:154-156 | the received job is marked running |
| `ScanJobs.Manager.Finish` | src/scanjob/manager.go:162-180 | the job's own context decides before the scanner's error, and the job gets the next number |
| `ScanJobs.Manager.CloseJobs` | src/scanjob/manager.go:189-199 | every unended job is cancelled under a number of its own, ended ones stay |
| `ScanJobs.EndAll` | src/scanjob/manager.go:191-199 | the closing loop, in any map order |
| `LiveService.StepKeeps` | server/live/service.go:168-320 | every step keeps: at most one job under way per repository and it is the one pointed to; what is on disk recovers to the same final stage |
| `LiveService.AlwaysOneActive` | server/live/service.go:168-190 | in every reachable state two jobs under way of one repository are the same job, and the repository points to it |
| `LiveService.FinalStaysFinal` | server/live/service.go:65-135 | no step, save failure or restart loses a known job, moves one out of its final stage, or changes a completed record |
| `LiveService.NeverBlocks` | server/live/service.go:177-188 | an accepted submission finds room in the channel |
| `LiveService.StepRemembers` | server/live/service.go:168-320 | one step remembers every job, its repository and its final stage |
| `LiveService.RestartKeeps` | server/live/service.go:78-135 | reopening on what is on disk gives a consistent service |
| `LiveService.Service.Submit` | server/live/service.go:168-190 | an existing job is returned unless a refresh of a finished one is asked for; refused or unsaved submissions change nothing |
| `LiveService.Service.Profile` | server/live/service.go:202-209 | the stage is set in memory whether or not it can be saved |
| `LiveService.Service.Checkpoint` | server/live/service.go:224-233 | results and stage of a checkpoint, saved if possible |
| `LiveService.Service.Finish` | server/live/service.go:235-247 | completed only without error and when that can be saved, otherwise failed |
| `LiveService.Service.Import` | server/live/service.go:299-318 | refused when closed or while a job of the repository is under way; a failed save changes nothing |
| `LiveService.ImportClaims` | server/live/service.go:299-318 | an accepted import is on record at once, finished, in memory and on disk, and its repository points to it; a refused or unsaved one leaves nothing |
| `LiveService.Service.Open` | server/live/service.go:65-135 | records under way become failed, and each repository points to its newest record |
| `LiveService.ReadRecords` | server/live/service.go:78-129 | the same, in whatever order the records are read |
| `SemVer.CompareVersions` | src/ecosystem/npm/version.go:220-231 | decides the precedence of section 11 of Semantic Versioning 2.0.0, and is zero only for identical versions |
| `SemVer.ComparePrerelease` | src/ecosystem/npm/version.go:233-277 | a release after its prereleases; identifiers field by field, the longer list after its prefix |
| `SemVer.CompareNumericIdentifier` | src/ecosystem/npm/version.go:279-293 | length first and then text is numeric comparison, for numbers of any length |
| `SemVer.PrecedesTotal` | src/ecosystem/npm/version.go:220-277 | precedence is antisymmetric and decides any two different versions |
| `SemVer.PrecedesTransitive` | src/ecosystem/npm/version.go:220-277 | precedence is transitive |
| `SemVerOrder.PrecedesIff` | src/ecosystem/npm/version.go:220-277 | precedence said field by field: major, minor and patch as numbers, then a prerelease before the release, then the first difference of the prereleases |
| `SemVerOrder.ExampleChain` | src/ecosystem/npm/version.go:220-277 | the chain of eight versions that section 11 gives as its example is ascending |
| `SemVer.ShorterIsSmaller` | src/ecosystem/npm/version.go:279-286 | fewer digits without leading zeros are a smaller number |
| `SemVer.SameLengthByText` | src/ecosystem/npm/version.go:286-292 | equally many digits compare as text as they do as numbers |
| `SemVer.ReadVersion` | src/ecosystem/npm/version.go:125-163 | the parser accepts what the grammar function accepts, and the result spells the input |
| `SemVer.ParseSpells` | src/ecosystem/npm/version.go:125-163 | exactly the spellings of a version parse, and to that version |
| `SemVer.RoundTrip` | src/ecosystem/npm/version.go:125-163 | printing and parsing a version gives it back |
| `SemVer.ReadPrerelease` | src/ecosystem/npm/version.go:177-197 | prerelease identifiers, classified as numeric or not, without leading zeros |
| `VersionRanges.Evaluate` | src/ecosystem/npm/version.go:28-55 | affected iff some understood constraint contains the version; not affected iff the list is non-empty, all are understood and none contains it; unknown otherwise |
| `VersionRanges.EvaluateConstraint` | src/ecosystem/npm/version.go:57-104 | which constraints are understood, and which versions they contain |
| `VersionRanges.FixedRange` | src/ecosystem/npm/version.go:83-103 | from a first affected version up to the fixed one: always answered, affected exactly from the first on and before the fixed one |
| `VersionRanges.UnknownIff` | src/ecosystem/npm/version.go:57-82 | a single constraint is answered unknown for an installed version exactly when its scheme is not npm, semver or cpe, it says nothing, states one of its ends twice, or holds a text that spells no version |
| `VersionRanges.SchemesAre` | src/ecosystem/npm/version.go:57-62 | the understood schemes by name |
| `VersionRanges.UnansweredSaysNothing` | src/ecosystem/npm/version.go:37-54 | a constraint without an answer anywhere in a list prevents not affected and changes nothing else |
| `VersionRanges.MixedIff` | src/ecosystem/versions/versions.go:23-52 | with OSV samples: affected iff a sample is exactly the pinned installed version or a range holds it; not affected iff there are only ranges and each excludes it |
| `VersionRanges.BoundsMean` | src/ecosystem/npm/version.go:83-103 | each bound alone, start and end, included or not, and an exact version |
| `VersionRanges.OrderDoesNotMatter` | src/ecosystem/npm/version.go:37-54 | the answer depends only on the set of constraints |
| `VersionRanges.RangesAreConvex` | src/ecosystem/npm/version.go:83-103 | a constraint without an exact version has no holes |
| `VersionRanges.EvaluateMixed` | src/ecosystem/versions/versions.go:23-52 | with OSV samples: affected iff some alternative is, not affected only if all say so |
| `VersionRanges.EvaluatorsAgree` | src/ecosystem/versions/versions.go:19-22 | without OSV samples both evaluators give the same answer |
| `VersionRanges.OsvNeverExcludes` | src/ecosystem/versions/versions.go:19-22 | an OSV sample that does not match is never evidence of not being affected |
| `OsvDiscovery.Query` | src/osv/discovery.go:113-224 | for any server and any cancellation: the requests are proper ones, each asking every query for the page after its last; no query takes part in more than maxPages of them; each result, in input order, is the outcome of its own pages, of its own last failed request, or of the end of the context; the loops terminate |
| `OsvPaging.CompleteXorError` | src/osv/discovery.go:116-224 | a result is never complete and in error, has sorted distinct identifiers, and is neither complete nor in error if and only if its query's last request failed with an empty text |
| `OsvPaging.MuteLeavesNothing` | src/osv/discovery.go:152-175 | a transport failing without a text, and a call whose result is neither complete nor in error |
| `OsvPaging.InterruptedByItsOwn` | src/osv/discovery.go:134-175 | a result that its pages do not end has the text of a failed request it took part in, or of the end of the context |
| `OsvPaging.WithinPages` | src/osv/discovery.go:133-208 | in any proper call every request but a failed last one gives a query a page, and none is asked for more than maxPages |
| `OsvPaging.CompleteIsWholeChain` | src/osv/discovery.go:179-193 | with a server that answers in order and by token, a complete result has exactly the identifiers of the query's own token chain |
| `OsvPaging.BatchingIsTransparent` | src/osv/discovery.go:116-224 | a query whose own requests are all answered, in order and with one page for each query of the batch, ends as it would alone, whatever happens to the others |
| `OsvPaging.IdsAreOfTheChain` | src/osv/discovery.go:116-224 | an interrupted result has only identifiers of the query's own chain |
| `OsvChains.AnsweredIsCourse` | src/osv/discovery.go:116-224 | such a query ends with the course of its own tokens: its identifiers are the readable ones of the pages on it and how it ends is the end of it, an empty page being one like any other |
| `OsvChains.SoloIsCourse` | src/osv/discovery.go:177-208 | paging alone, said without walking: the tokens followed, where they end, and the identifiers collected |
| `OsvChains.CourseUnique` | src/osv/discovery.go:191-208 | there is one course of tokens |
| `OsvDiscovery.ReadNext` | src/osv/discovery.go:177-208 | one page of one query: errors, completion, repeated token, page limit or the next token |
| `OsvDiscovery.ReadBatch` | src/osv/discovery.go:176-209 | the j-th result of a reply is read for the j-th query of the batch, although queries leave the batch at any position |
| `OsvDiscovery.CheckReply` | src/osv/discovery.go:153-169 | a reply is usable exactly when it is an answer with one page for each query of the batch and none of them null; an empty page is a page |
| `OsvDiscovery.GiveUp` | src/osv/discovery.go:170-175 | a failed request marks its own queries, and leaves every other result as it is |
| `OsvDiscovery.SkipAll` | src/osv/discovery.go:134-143 | the end of the context marks the batch and everything waiting, and leaves finished results as they are |
| `IdLists.Compact` | src/osv/discovery.go:212-222 | the in-place loop leaves the distinct elements of a sorted list in order |
| `OsvCache.StepKeeps` | src/osv/client.go:302-346 | at most 100 keys, the byte counter exact and at most 8 MiB, cells in flight or with a body reachable by their key, and each caller out fetching alone for an open cell |
| `OsvCache.OneFlight` | src/osv/client.go:302-326 | at most one caller is out fetching for a key |
| `OsvCache.NeverStranded` | src/osv/client.go:307-327 | while a cell is not closed some caller is out that will close it, and only then |
| `OsvCache.ClosedOnce` | src/osv/client.go:327-346 | ready is closed exactly once for every cell that is ready, although the closing section does not look: its one caller is gone afterwards |
| `OsvCache.SameBytesLater` | src/osv/client.go:302-346 | once a body was returned for a key, every later success returns the same bytes |
| `OsvCache.BodyStays` | src/osv/client.go:302-321 | a key with a body keeps it and never needs another fetch |
| `OsvCache.WithinLimits` | src/osv/client.go:302-346 | in every reachable state at most 100 keys and at most 8388608 bytes, and the counter is the sum of the stored bodies |
| `OsvCache.LandClaims` | src/osv/client.go:327-346 | the body is kept exactly when the fetch succeeded, nothing was cancelled and it fits; a cancelled fetch frees its key, a failed one keeps its error |
| `OsvCache.Client.Ask` | src/osv/client.go:302-326 | wait for a cell that exists, fail when the cache is full, otherwise fetch for a new one |
| `OsvCache.Client.Land` | src/osv/client.go:327-346 | the body is stored if nothing went wrong and there is room; cancellations leave the cache |
| `OsvCache.Client.Collect` | src/osv/client.go:307-317 | a waiting caller gets its own cancellation or the cell's result |
| `NvdFetch.Fetch` | src/nvd/fetch.go:18-151 | success means exactly count distinct identifiers, newest first, within 128 requests; over an unchanged ascending database each has its latest publication and none left out is newer; without failures it gives up only when there are too few identifiers or requests |
| `NvdFetch.FetchTail` | src/nvd/fetch.go:104-150 | the paging loop from the tail |
| `NvdFetch.FetchPage` | src/nvd/fetch.go:41-95 | a page is used only if its extent, dates and order are right |
| `NvdFetch.UsableIff` | src/nvd/fetch.go:62-95 | which pages are used: of the total that was counted, of the extent asked for, every record dated and none older than the one before |
| `NvdRecords.Merge` | src/nvd/fetch.go:123-128 | the selection holds every identifier read with its latest publication |
| `NvdRecords.Rank` | src/nvd/fetch.go:130-139 | the selected records, newest first, ties by identifier, in whatever order the map is walked |
| `NvdRecords.TopDominates` | src/nvd/fetch.go:129-143 | the first records of the ranking dominate everything when what was read is its newest part |
| `NvdRecords.RankedMeans` | src/nvd/fetch.go:130-139 | no record is published before a later one of the list, equal dates are listed by identifier |
| `NvdLatest.FetchLatest` | src/nvd/latest.go:71-218 | at most limit distinct records, newest first; none of the range left out is newer; fewer than limit only when the range has no more; within the request budget |
| `NvdLatest.OptionsMean` | src/nvd/latest.go:71-110 | which options are accepted, and what each default stands for |
| `NvdLatest.ReadWindow` | src/nvd/latest.go:169-212 | one window read from its last aligned page backwards |
| `NvdLatest.FetchBack` | src/nvd/latest.go:164-217 | windows going back in time, sharing their boundaries, end with the range or the budget |
| `NvdLatest.UsableIff` | src/nvd/latest.go:133-161 | which pages are used: they begin where asked, and hold 200 records or all that are left |
| `NvdLatest.CheckItems` | src/nvd/latest.go:192-206 | a page is used up to its first unreadable, misplaced or unordered record |
| `NvdLatest.FineIff` | src/nvd/latest.go:192-206 | a page is used whole exactly when every record has a date and an identifier, lies in the window, is not older than the one before it and not newer than the page read before |
| `NvdLatest.ReadingIsNewest` | src/nvd/latest.go:174-212 | at any page boundary everything read is at least as new as everything not read |
| `PomExpand.Expand` | src/ecosystem/lockprofile/pom.go:214-261 | succeeds exactly when filling in the holes of the text ends within the limits on depth, work and size, and then with the filled text; the filling is said by how texts are put together |
| `PomExpand.NextHoleIff` | src/ecosystem/lockprofile/pom.go:224-238 | the first hole of a text: it splits as before + "${" + key + "}" + rest with no "${" starting before it and no brace in the key; there is none exactly when "${" does not occur; it is unclosed exactly when no brace follows the first one |
| `PomExpand.ExpandsIff` | src/ecosystem/lockprofile/pom.go:214-261 | the limits and result of substitution are those of a filling, for every text and result |
| `PomExpand.OneHole` | src/ecosystem/lockprofile/pom.go:224-258 | a + "${key}" + b becomes a + value + b within the limits, for a without holes, and b and value without holes |
| `PomExpand.Expansion.Resolve` | src/ecosystem/lockprofile/pom.go:219-259 | the same for every nested call; the set of active properties is left as it was found |
| `PomExpand.Expansion.Substitute` | src/ecosystem/lockprofile/pom.go:224-258 | the loop over the holes of one text |
| `PomExpand.SubstitutionUnique` | src/ecosystem/lockprofile/pom.go:214-216 | unbounded substitution has at most one result |
| `PomExpand.CyclesNeverEnd` | src/ecosystem/lockprofile/pom.go:239-242 | a property that needs itself has no result at any depth |
| `PomExpand.ActiveMeansCycle` | src/ecosystem/lockprofile/pom.go:239-242 | refusing a property that is being expanded never loses a result |
| `PomExpand.DeeperSame` | src/ecosystem/lockprofile/pom.go:222-224 | allowing more depth changes no result |
| `ReportLifecycle.ParseStored` | frontend/src/services/reportSession.ts:31-50 | restores exactly the records that continue the baseline, with consecutive dated revisions that end at the stated one |
| `ReportLifecycle.StoredIsRestored` | frontend/src/services/reportSession.ts:31-50 | what is stored of any lifecycle of an item not dated in the future is restored as it is, exactly when the end of its tracking can be written, its revision counted, and the baseline is an earlier state analyzed if it is |
| `ReportLifecycle.RestorableIff` | frontend/src/services/reportSession.ts:31-50 | the condition in plain terms: same article and origin, at most 100 revisions, numbered and dated in order up to the stated one, every date writable with a four-digit year, the next check between the last analysis and the end of tracking |
| `ReportLifecycle.LateIsNotRestored` | frontend/src/services/reportSession.ts:31-50 | a lifecycle made on the last day of the year 9999, which is sound and not restored |
| `ReportLifecycle.RunIsSound` | frontend/src/services/reports.ts:123-170 | every lifecycle of an item not dated in the future has consecutive revisions, ordered dates and a next check between its last analysis and the end of tracking |
| `ReportLifecycle.AtMostSixScheduled` | frontend/src/services/reports.ts:123-165 | between renewals there are at most six scheduled updates, whatever the dates of the item |
| `ReportLifecycle.SixAreMade` | frontend/src/services/reports.ts:143-170 | the bound is reached: the six daily updates after a renewal are made, a later one is not |
| `ReportLifecycle.UpdateMeans` | frontend/src/services/reports.ts:144-165 | when an update is made, and what it dates, numbers and asks for next |
| `ReportLifecycle.RenewMeans` | frontend/src/services/reports.ts:167-171 | a renewal tracks for seven more days from now and asks for the next check a day from now |
| `ReportLifecycle.CreateMeans` | frontend/src/services/reports.ts:123-137 | an analyzed item starts at its analysis, an unfinished one now, with nothing analyzed and no check due |
| `ReportLifecycle.TrackingNeverExtended` | frontend/src/services/reports.ts:143-170 | only a renewal moves the end of tracking |
| `ReportLifecycle.CreateIsSound` | frontend/src/services/reports.ts:123-137 | a new lifecycle is sound when its item is not dated in the future |

## Left out

- DirectoryCache.Cache.ReadDir: names are already normalized, files are told apart by an identifier and SameFile is equality of identities; directory reads fail only through Stat, so an I/O error in the middle of a directory is not modelled.
- DirectoryCache.RunCalls: directory contents are stable, a file is fresh on first use and used under one name, as the cache asks of its callers; `WrapFS` and a nil cache are not modelled.
- UnionFind.Join: the parent map is passed and returned as a value instead of being shared; the order of the calls is kept.
- ScanReport.Plan: which components are queried, and the texts queries and components sort by, are parameters; only that different queries encode differently is used.
- ScanValidate.ValidateState: a record map is always present, so the refusal of a missing one is not modelled; JSON documents are values with their decodings, times are integers with zero for an absent one, and error messages are not told apart.
- ScanRun.Run: each advisory and each CVE is asked for at most once, so a client is a function of the identifier; pacing between lookups is not modelled.
- ScanHistory.Changes: stated for reports with valid record keys and distinct queries, which validated reports have; comparing JSON values is a parameter.
- ScanLog.LogTellsKeys: the events of runs that are not saved are not part of the log, although the command prints them; a reader has to drop them, since the next run reports them again.
- ScanHistory.Save: the file is absent, unreadable or a state; temporary files, permissions and renaming are not part of this model.
- AnalysisRun.Run: feed construction, output validation and checksums are parameters; progress messages and the joined error value are not modelled, and copying a report through JSON changes nothing.
- AnalysisRun.RunRepeatedly: the analyzer is deterministic apart from failing calls, and clocks do not go backwards from one run to the next.
- Preparation.PrepareGroup: whether the records of a group pass their own checks (membership, identity, times, advisory kinds) and whether the processor accepts the input are parameters; evidence texts, warnings and descriptions are left out, and so is the loop of `Prepare` that collects groups and orphan hits.
- Assessment.Assess: the lists of sources and missing reasons, and the three levels that are always unknown, are left out.
- ScanJobs.Manager.Submit: the request has passed validation and the random identifier is not in use; timeouts appear as an expired job context.
- LiveService.Service.Import: reading and restoring the two files is left out; a record keeps only its repository, creation time, stage and results.
- LiveService.Service.Open: an opening that fails halfway is not modelled; messages and result counts are left out.
- VersionRanges.EvaluateMixed: the version grammars behind `IsPinned` are one predicate.
- SemVer.ReadVersion: characters are compared, not bytes; the two agree on the ASCII text that is accepted.
- OsvDiscovery.Query: HTTP, JSON and response limits appear as a failed request with a text; the context ends with one text, not two.
- OsvCache.Client.Land: the fetch itself, and its own limits, are parameters.
- NvdFetch.Fetch: normalization of a record and pacing are left out; a record that cannot be normalized is a failed request.
- NvdLatest.FetchLatest: publication texts are read as times, with zero for one that does not parse; pacing is left out.
- PomExpand.Expand: sizes are counted in characters.
- ReportLifecycle.ParseStored: the stored value has the right field types; values of other JSON types, which the code refuses, are left out.
- OSV enrichment of a profile, matching, feeds, the HTTP API, the lockfile and manifest parsers other than property expansion, prompts and the user interface: they would add easy members or are I/O.

# Foxhound in Dafny

A model of Foxhound's durable protocols, with proofs of what they keep over whole runs.

- **Candidate inbox** (`Json`, `ContractUpgrade`, `UpgradeRule`, `Candidate`, `InboxTables`, `InboxAgreement`, `InboxDecisions`, `InboxRuns`, `InboxHistory`, `ImportCounts`, `Inbox`). Candidate documents, feed pages and shadow observation pages are imported in transactions over nine tables. `InboxTables` says what each transaction does to the tables, `Inbox.CandidateInbox` is the class that does it in place, `InboxDecisions` and `UpgradeRule` prove exactly when it gives which answer, `ImportCounts` what the reported counters mean, and the other modules what every run from an empty database keeps.
- **Outbox import** (`Outbox`, `Interleaved`, `Snapshot`). A producer's page ledger is read, validated and folded over the feed import, by runs that may die after any page, one after another or at the same time.
- **Dispatch** (`Dispatch`, `DispatchRecovery`, `DispatcherState`, `SupervisorLoop`, `Lane`). Starters, supervisors, cancellers, crashes and the process table act on shared job documents; some writes take the state lock and two do not.
- **Forge threads** (`ThreadText`, `ForgeThread`, `ThreadBounder`). The loop that cuts a thread down to 30,000 characters of JSON, with the JSON text itself.
- **Keep/Undo cards** (`ChangeReviews`, `ReviewService`). Leased delivery of review cards, and an undo that reopens a closed item of the ledger.
- **Execution runner** (`Runner`, `TranscriptScan`). The supervision loop against any child, service and clock, and the incremental scan of the transcript.
- **Profile catalog** (`Catalog`, `CatalogParser`, `Registry`). Catalog documents, variants, and the registry built from them.
- **Fused titles** (`FusedTitles`, `TitleStore`). A claim and a publish in two transactions with nothing but the job's state between them.

`Options` and `Heartbeats` hold what several of these share.

## How to read it

State is held twice where the program updates it in place. A module of functions says what one transaction, lock region or write does to a value, and lemmas prove what runs of those steps keep; a class with the same fields has one method per transaction whose postcondition equates its new state and answer with the function. A run is a sequence of steps in any order; a step whose guard does not hold changes nothing.

Choices that matter for what the results mean:

- A page digest, a token digest and a candidate id are taken as what they digest. Stored canonical texts are held as the parsed value; `Candidate.PayloadIsInjective` is why that loses nothing. JSON numbers are reals, so NaN and infinities are not documents here, and Python's `True == 1` is modelled (`Json.PyEq`).
- The inbox results hold for any upgrade relation between a stored and an incoming candidate; the class uses the program's own.
- Document parsers hand the inbox a parsed candidate or page, or nothing. A parsed page has `from <= to` and one item for each sequence `from + 1..to`.
- A transaction is one step, and rolls back when it refuses or raises. A process start probe tells the truth about the process that has the pid, start identities do not recur, and the dispatcher's clock does not go back. Every start uses the same concurrency limit.
- The review clock is arbitrary in every call: nothing about cards depends on it going forward.
- A signal or an unexpected error in a turn of the runner's loop counts from the start of that turn.

## Where the code does less than it seems to

- **Resuming an import.** A page with no items writes no receipt. A ledger in which such a page is followed by one with items can be imported once, and every later run stops at that page as an overlap. `Outbox.RerunReturnsIff` gives the exact condition, `Outbox.EmptyPageBreaksResumption` a ledger that shows it, and `Outbox.ImportIsResumable` the full result when the condition holds.
- **Transcript scan.** The overlap kept is the end of the last read only, so a refusal spread over three short reads is missed for good (`TranscriptScan.ThreeReadsCanMiss`); `TranscriptScan.TextIsSeenIff` says exactly which texts are seen, whether or not polling keeps up. When more than 256 KiB arrives between two polls, the two sides of the gap are searched as if joined, and a refusal can be found that is nowhere in the file (`TranscriptScan.GapsCanDeceive`). `TranscriptScan.NeverDeceivesIff` gives the exact condition: that cannot happen exactly when there is no overlap or at most 256 KiB is new.
- **Fused titles.** Two passes that overlap can leave an outdated title ready, with nothing pending to mend it (`FusedTitles.OverlappingPassesPublishOldTitles`). `FusedTitles.OutdatedIff` gives the exact condition: between the claim a title was made at and its publication, somebody asked and then another pass claimed.
- **Catalog round trip.** An entry that spells out `"variants": null` is accepted and written back without that member (`Catalog.ParsedCatalogBack`).
- **Thread bounding.** Cutting a body to the marker can make the text longer (`ForgeThread.CutLengthensIff`), so the loop's end does not follow from its size falling.
- **Heartbeat.** The heartbeat's branch for an orphaned job is never taken: a job that is over stays over (`Dispatch.OverIsOver`).
- **Cancelled jobs.** A job recorded as cancelled can show exit code 0: exactly when a cancel had marked it and its child had exited with 0 before the loop saw any cause (`Lane.JobsEndAsReported`).
- **Corrective turns.** A corrective process may still be launched after the deadline, so a run can outlast it (`Runner.ARunMayOutlast`). `Runner.OutlastsIff` says exactly when: the child exits at or after the deadline and the branch that relaunches is open. `Runner.ClockIsBounded` bounds the overrun by one turn for each launch.

## Model

| member | source | states |
|---|---|---|
| Json.PyEqIsRepEquality | src/foxhound/candidate_inbox.py:6478-6524 | Python equality of decoded documents, with `True == 1` at every depth, is equality of representatives, hence an equivalence relation |
| Json.ScalarsMean | src/foxhound/candidate_inbox.py:6478-6524 | which documents are equal to a null, a text, a number or a Boolean: equal ones only, except that true is 1 and false is 0 |
| ContractUpgrade.SharedShapeFactors | src/foxhound/candidate_inbox.py:6494-6524 | stripping a document for a newer contract and then for an older one is stripping it for the older one |
| ContractUpgrade.ShapesEqualUnderOlderContract | src/foxhound/candidate_inbox.py:6494-6524 | documents that a newer contract cannot tell apart cannot be told apart by an older one either, up to Python equality |
| ContractUpgrade.UpgradeIsTransitive | src/foxhound/candidate_inbox.py:6478-6524 | two upgrades in a row are an upgrade, although each compares what its own older contract shares |
| ContractUpgrade.UpgradeIsAStrictPartialOrder | src/foxhound/candidate_inbox.py:6478-6524 | the upgrade relation is irreflexive, asymmetric and transitive on all JSON documents |
| UpgradeRule.ShapesMean | src/foxhound/candidate_inbox.py:6494-6524 | comparing what contract `version` shares of two documents is comparing them field by field: all top-level fields but the version, the source without revision and history, the lifecycle without generation, and the task without object, action, participants and confidence below 8, without person ids in owner and participants below 11, and without working group below 12 |
| UpgradeRule.UpgradesIff | src/foxhound/candidate_inbox.py:6478-6524 | one document upgrades another exactly when both are of contract 7, 8, 9, 11 or 12, the number rises, and the two are equal field by field as the older contract sees them |
| UpgradeRule.RaisesIff | src/foxhound/candidate_inbox.py:6478-6492 | the upgrade test raises exactly when it comes to a version that is a list or an object |
| Candidate.PayloadsNeverRaise | src/foxhound/candidate_inbox.py:6478-6492 | the upgrade test never raises on two canonical payloads |
| Candidate.PayloadIsInjective | src/foxhound/candidate_inbox.py:6527-6533 | parsed candidates with equal canonical payloads are equal |
| InboxAgreement.AgreementRulesOutErrors | src/foxhound/candidate_inbox.py:6128-6285 | while the candidate tables agree, none of the four errors of `_apply_candidate` and no key violation can come, for any candidate |
| InboxAgreement.ApplyKeepsAgreement | src/foxhound/candidate_inbox.py:6128-6285 | applying a candidate keeps the tables in agreement and every stored revision as it was, and an accepted candidate is then in history with its own content |
| InboxAgreement.AcceptedTwiceIsUnchanged | src/foxhound/candidate_inbox.py:6197-6285 | UNCHANGED means exactly that the revision is stored with this content; an accepted candidate imported again is UNCHANGED and alters nothing |
| InboxDecisions.NewCandidatesAreInserted | src/foxhound/candidate_inbox.py:6145-6196 | a candidate is inserted exactly when it has no row |
| InboxDecisions.AnswersIff | src/foxhound/candidate_inbox.py:6197-6285 | for a candidate with a row, exactly when each answer comes: creation conflict, stale generation, generation conflict, gap, revision conflict, unchanged, and updated for an upgrade, from generation 0, or at the next generation |
| InboxDecisions.AcceptedIsStored | src/foxhound/candidate_inbox.py:6145-6285 | an accepted candidate is stored column by column in the three tables and no other row changes; any other answer changes nothing |
| InboxDecisions.NextGenerationIsAccepted | src/foxhound/candidate_inbox.py:6222-6285 | the next generation of a stored candidate under a new revision is always an update, whatever the upgrade test says |
| InboxAgreement.ItemLoop | src/foxhound/candidate_inbox.py:5796-5826 | the items of a page at the cursor never raise; when all are accepted, the tables still agree, exactly the page's sequences are added, each naming its item's revision, and the counts add up to the items |
| InboxAgreement.ReceiptIsNew | src/foxhound/candidate_inbox.py:5764-5842 | a non-empty page at the cursor has no receipt and none of its sequences stored |
| InboxDecisions.PagesAtTheCursor | src/foxhound/candidate_inbox.py:5784-5852 | a page ahead of the cursor is a gap, one without items at it is empty; otherwise it is applied exactly when every item is accepted after those before it, and else refused for the first that is not; applied, it moves the cursor to its end and leaves its receipt |
| InboxDecisions.TallyCountsRows | src/foxhound/candidate_inbox.py:5796-5842 | inserted is the number of rows the inbox gains, inserted and updated that of the revisions the history gains, and all three counts that of the items |
| InboxAgreement.AppendKeepsTiles | src/foxhound/candidate_inbox.py:5757-5842 | appending such a page keeps the receipts a gapless, non-overlapping tiling of 0 to the cursor with every page's items stored |
| InboxRuns.FeedKeepsInv | src/foxhound/candidate_inbox.py:5741-5852 | one feed import keeps all tables in agreement, never raises, and an applied page counts every item once |
| InboxRuns.ShadowKeepsInv | src/foxhound/candidate_inbox.py:5854-5954 | one shadow import keeps all tables in agreement, never raises, leaves the candidate tables alone, and adds as many observations as it reports |
| InboxRuns.ReachableTablesAgree | src/foxhound/candidate_inbox.py:5714-5954 | after any run of document, feed and shadow imports from an empty database all tables agree and no next call of any kind raises |
| InboxRuns.ItemsAreExactlyTheRange | src/foxhound/candidate_inbox.py:5757-5842 | in every reachable state the stored sequences of every stream are exactly 1 to its cursor |
| InboxHistory.ReceiptsAreAppliedPages | src/foxhound/candidate_inbox.py:5764-5842 | in every reachable state the receipts are exactly the pages the run applied, under their own ranges |
| InboxHistory.PagesBehindTheCursor | src/foxhound/candidate_inbox.py:5764-5783 | a page behind the cursor is REPLAYED exactly when that page was applied, CURSOR_REUSE exactly when its range was applied with other content, CURSOR_OVERLAP otherwise; nothing changes |
| InboxHistory.GenerationsStepByOne | src/foxhound/candidate_inbox.py:6197-6285 | outside contract upgrades a stored generation never falls, once positive every UPDATED raises it by exactly one, and nothing else moves it |
| InboxHistory.GenerationsAreConsecutive | src/foxhound/candidate_inbox.py:6197-6285 | in a run without contract upgrades the positive generations in each candidate's history are consecutive integers up to the current one, with one revision each |
| InboxHistory.ObservationsNameTheirRevision | src/foxhound/candidate_inbox.py:6069-6126 | in every reachable state an observation names a history revision holding exactly the observed candidate, and is agreed or divergent as comparing the legacy digest with that stored candidate says |
| InboxDecisions.ObservationAnswersIff | src/foxhound/candidate_inbox.py:6078-6100 | exactly when an observation is inserted, unchanged, without its candidate, of another candidate, or in conflict with the stored one |
| InboxDecisions.ObservationColumns | src/foxhound/candidate_inbox.py:6102-6126 | what is stored of an observation, and how it compares, on the fields of the candidate and of the legacy task |
| ImportCounts.ShadowAnswersIff | src/foxhound/candidate_inbox.py:5854-5954 | exactly when a shadow page is replayed, reused, overlapping, a gap, empty or applied, what an applied one stores, and that all others change nothing |
| InboxHistory.ReportCountsEveryObservation | src/foxhound/candidate_inbox.py:5967-5984 | the report's four counts add up to its total, which is all that the run's shadow pages reported as inserted |
| InboxHistory.ReportMeans | src/foxhound/candidate_inbox.py:5967-5984 | in every run agreed counts the observations whose legacy task has the text, project and owner of the stored candidate, divergent those whose legacy task differs, and the other two those without one, by disposition |
| Inbox.CandidateInbox.ApplyCandidate | src/foxhound/candidate_inbox.py:6128-6285 | the method that writes the three candidate tables takes the specified decision and leaves the specified tables |
| Inbox.CandidateInbox.ImportDocument | src/foxhound/candidate_inbox.py:5714-5739 | an unparsed document changes nothing; otherwise tables and answer are those of the specified transaction, rolled back unless accepted |
| Inbox.CandidateInbox.ImportFeed | src/foxhound/candidate_inbox.py:5741-5852 | the item loop with its early exits and rollbacks leaves exactly the specified tables and answer, also when a later item is refused after earlier ones were written |
| Inbox.CandidateInbox.ImportShadowFeed | src/foxhound/candidate_inbox.py:5854-5954 | the same for an observation page, touching the three shadow tables only |
| Inbox.ShadowReport | src/foxhound/candidate_inbox.py:5967-5984 | one pass over the rows counts each comparison, and the total is the number of rows |
| Inbox.ImportSnapshot | src/foxhound/candidate_feed_import.py:85-135 | the page loop leaves the tables and ends as the specified fold does, reports its counters and both cursors, and on a refusal gives the refusing page and that page's own answer |
| Outbox.ImportMovesCursor | src/foxhound/candidate_feed_import.py:85-135 | the fold keeps the invariant and leaves the cursor between where it was and the ledger's end, at the end if no page was refused and it was not past it |
| ImportCounts.CountersMean | src/foxhound/candidate_feed_import.py:94-135 | however an import ends, inserted is the rows the inbox gained, inserted and updated the revisions its history gained, the three counts together the way the cursor went, applied the receipts gained, and applied and replayed together the pages with items it was through with |
| Outbox.RestartRepeats | src/foxhound/candidate_feed_import.py:85-135 | started over from where some pages led, the pages already done change nothing and stop, if at all, at the same page |
| Outbox.RestartContinues | src/foxhound/candidate_feed_import.py:85-135 | started over from where some pages led and going further is going there at once |
| Outbox.ImportIsResumable | src/foxhound/candidate_feed_import.py:85-135 | any runs cut off after any page, with the ledger growing in between, followed by one whole run, leave the tables and end, down to the refused page, as that one run alone would have |
| Interleaved.NextPage | src/foxhound/candidate_feed_import.py:99-124 | an importer that is behind the others repeats what happened to its page, one that is level moves the tables on, and a page is refused to all or to none |
| Interleaved.ImportersStayTogether | src/foxhound/candidate_feed_import.py:85-135 | however importers interleave page by page, the tables are always where one importer alone would be after some number of pages, and every importer is on that course |
| Interleaved.InterleavedImportsAgree | src/foxhound/candidate_feed_import.py:85-135 | an importer that ends on the whole ledger, whatever others did meanwhile, leaves the tables and ends, down to the refused page, as if it had been alone |
| Outbox.ReturnReachesTheEnd | src/foxhound/candidate_feed_import.py:85-135 | a run that returns leaves the cursor at the ledger's end |
| Outbox.InteriorEmptyPageStops | src/foxhound/candidate_inbox.py:5764-5794 | with the cursor at the end, a ledger with an empty page before a non-empty one is always refused |
| Outbox.RerunReturnsIff | src/foxhound/candidate_feed_import.py:85-135 | after a run that returned, running again returns exactly when no empty page is followed by one that is not empty, and changes nothing either way |
| Outbox.EmptyPageBreaksResumption | src/foxhound/candidate_inbox.py:5764-5794 | a two-page ledger that is imported once and refused ever after |
| Snapshot.ReadSnapshot | src/foxhound/candidate_feed_import.py:286-328 | a snapshot is accepted exactly when every file parses, is named after its range, and the pages are one chain of the requested stream in which no candidate repeats a revision or changes its creation time; the result is that chain and its end |
| Snapshot.FreshItems | src/foxhound/candidate_inbox.py:6145-6285 | the items of an accepted ledger, applied to an inbox built from the earlier ones, are refused for a generation only, never unchanged, inserted once for each new candidate and otherwise updated |
| Snapshot.AcceptedSnapshotImports | src/foxhound/candidate_feed_import.py:286-328 | importing an accepted snapshot into a fresh inbox can only be refused for a generation; otherwise inserted is the number of distinct candidates, updated the remaining items, unchanged 0 |
| Dispatch.NextFits | src/foxhound/agent_dispatch.py:245-345 | every step of every actor keeps the invariant: supervisors are alive, one to a job, and a supervisor about to write holds the document as it stands |
| Dispatch.AdmittedKeepsBound | src/foxhound/agent_dispatch.py:273-344 | a job let in below the limit and into a free directory keeps the bound and the directories apart |
| Dispatch.NextKeepsBound | src/foxhound/agent_dispatch.py:153-202 | no other step makes a job count, or moves one into another directory |
| Dispatch.AtMostLimitActive | src/foxhound/agent_dispatch.py:273-344 | in every interleaving at most `limit` jobs are active and no two of them share a working directory |
| Dispatch.WorkersAreActive | src/foxhound/agent_dispatch.py:503-571 | every supervisor at work works on an active job |
| Dispatch.OverIsOver | src/foxhound/agent_dispatch.py:198-202 | the document of a job that is over, orphaned ones included, is never written again |
| DispatchRecovery.OrphanedIff | src/foxhound/agent_dispatch.py:153-202 | a reconciled document changes exactly when it is open, no process has its recorded identity, and its last stamp is more than 30 seconds old or more than 5 ahead; it is then orphaned, finished now, without an exit code |
| DispatchRecovery.LostJobsGiveWay | src/foxhound/agent_dispatch.py:245-331 | when a job's supervisor has ended and 31 seconds or more have passed, a start is let in exactly as the other jobs allow, into that job's directory and slot too, and the job is left orphaned |
| DispatchRecovery.AdmittedJobsRun | src/foxhound/agent_dispatch.py:290-507 | an admitted start, its record and its supervisor's first write make a running job with the supervisor's identity and stamps of that moment |
| Dispatch.UnlockedWritesLoseNothing | src/foxhound/agent_dispatch.py:453-507 | the two writes made without the lock are made from the document as it stands, so they change nothing but what they set |
| Dispatch.StartersLoseNothing | src/foxhound/agent_dispatch.py:290-344 | while a start holds the lock its own copy of the document is the stored one, so writing that copy back changes the supervisor's identity alone |
| DispatcherState.Dispatcher.ReconcileEach | src/foxhound/agent_dispatch.py:276-280 | the loop over the jobs reconciles each and returns exactly the active ones, which are those that were active before |
| DispatcherState.Dispatcher.Reserve | src/foxhound/agent_dispatch.py:273-331 | a start is refused for the limit exactly when that many jobs are active, for the directory exactly when it is below the limit and an active job is there, and otherwise takes the specified step |
| DispatcherState.Dispatcher.Record | src/foxhound/agent_dispatch.py:335-344 | the starter's own document is written with the identity of the process, exactly if it is there; in reachable states nothing else of the stored document changes |
| DispatcherState.Dispatcher.Status | src/foxhound/agent_dispatch.py:637-642 | the answer is the stored document, and if it is open then the job is active |
| DispatcherState.Dispatcher.Cancel | src/foxhound/agent_dispatch.py:659-679 | a job is signalled exactly when it is open, not starting, live and leads its group, and then only its state changes; it is answered as unknown, over or not ready exactly when it is that |
| DispatcherState.Dispatcher.Heartbeat | src/foxhound/agent_dispatch.py:555-570 | in reachable states a running job's stamp and counts are renewed, a cancelling one is left alone, and no state changes |
| DispatcherState.Dispatcher.Begin | src/foxhound/agent_dispatch.py:506-507 | in reachable states the write made without the lock turns a starting job into a running one and changes two stamps and nothing else |
| SupervisorLoop.ResultMeans | src/foxhound/agent_dispatch.py:535-608 | exit code 0 exactly for completed, and that exactly when the child exits with 0 before any cause to stop it; failed exactly for another exit before any cause or a signal that finds no process; timed out gives 124 and only past the deadline, stalled gives 125 and only with a limit and no earlier edit, cancelled comes only on a request in an earlier turn |
| SupervisorLoop.CauseMeans | src/foxhound/agent_dispatch.py:572-590 | what cause a turn sees, exactly: a request made by then, else the deadline, else a limit on tool calls reached without an edit |
| SupervisorLoop.CausesDecide | src/foxhound/agent_dispatch.py:572-608 | the outcome is one of the three causes exactly when the first turn to see a cause, before the last, saw that one |
| SupervisorLoop.RequestsCancel | src/foxhound/agent_dispatch.py:572-608 | a child whose termination is requested before any other cause, and which is still there to be signalled, ends cancelled with an exit code other than 0 |
| SupervisorLoop.CodesMean | src/foxhound/agent_dispatch.py:601-608 | an exit code of 124 means timed out, and 125 stalled, exactly unless the child itself ended with that code and not for the other timed cause |
| SupervisorLoop.EndIsBounded | src/foxhound/agent_dispatch.py:572-600 | the loop ends within the timeout, the ten seconds' grace and two turns, and kills no sooner than ten seconds after the first signal |
| SupervisorLoop.BeatsKeepUp | src/foxhound/agent_dispatch.py:544-571 | heartbeats are at most five seconds and a turn apart, and so is every turn from the last of them |
| SupervisorLoop.BeatsAreSpaced | src/foxhound/agent_dispatch.py:544-571 | heartbeats are never less than five seconds apart |
| SupervisorLoop.ProbesMean | src/foxhound/agent_dispatch.py:544-571 | a turn beats exactly when that is due, looks for edits exactly when also thirty seconds have gone by since it last did, and keeps an edit once found |
| SupervisorLoop.RunChild | src/foxhound/agent_dispatch.py:529-608 | the loop ends for every child and clock, however long its turns take, in the first turn in which the child has exited, a signal finds no process, or the grace is over; its outcome is that of the first cause any turn saw, or else of the child's exit, and its counts are what the probes found |
| Lane.JobsEndAsReported | src/foxhound/agent_dispatch.py:529-623 | the job ends with the loop's exit code, and with its outcome unless a cancel has marked it; it completes exactly when no cancel did and the child exited with 0 before any cause |
| Lane.MarkedJobs | src/foxhound/agent_dispatch.py:611-679 | one step leaves a marked job marked, makes it cancelled with the reported code by its supervisor's last write, or orphaned when it has no live supervisor |
| Lane.MarkedJobsEndCancelled | src/foxhound/agent_dispatch.py:611-679 | in every run a marked job never ends otherwise than cancelled or orphaned; it is cancelled exactly if its supervisor made its last write, and keeps the exit code reported there |
| DispatcherState.Dispatcher.Finish | src/foxhound/agent_dispatch.py:611-623 | the job is over and no longer active, cancelled if it was cancelling and otherwise with the given outcome; no other job changes |
| ThreadText.EscapedConcat | src/foxhound/forge_thread.py:165-166 | the JSON escape of a concatenation is the concatenation of the escapes |
| ThreadText.EscapedGrows | src/foxhound/forge_thread.py:165-166 | an escaped text is at least as long as the text, and as long when nothing needs escaping |
| ThreadText.EscapeLengths | src/foxhound/forge_thread.py:165-166 | how many characters stand for one: one for printable ASCII, two for the seven short escapes, six in the first plane, twelve beyond; all are printable ASCII |
| ThreadText.RenderedLengths | src/foxhound/forge_thread.py:165-166 | the length of an entry's, a list's and a thread's JSON text from the lengths of its escaped parts |
| ForgeThread.LongestIsFirstLongest | src/foxhound/forge_thread.py:169-174 | the entry picked is the first of the longest bodies that can still be cut, and none is picked only if none can |
| ForgeThread.PartCutFits | src/foxhound/forge_thread.py:174-177 | a cut that keeps part of a body fits the limit at once |
| ForgeThread.CutLeaves | src/foxhound/forge_thread.py:169-177 | a turn leaves of the body it picks exactly `excess` characters less, the marker included, when it has more than `excess + 11`, and the marker alone otherwise; it changes nothing else |
| ForgeThread.PlainCutFills | src/foxhound/forge_thread.py:174-177 | a turn that keeps part of a plain body leaves a text of exactly 30,000 characters |
| ForgeThread.KeptInPartFills | src/foxhound/forge_thread.py:168-185 | when the loop's result keeps part of a plain body, its text has exactly 30,000 characters |
| ForgeThread.CutLengthensIff | src/foxhound/forge_thread.py:174-177 | a cut makes the text longer exactly when the escaped body is shorter than the marker |
| ForgeThread.ATurnMayLengthen | src/foxhound/forge_thread.py:174-177 | a thread that a turn makes longer |
| ForgeThread.ShrinkFalls | src/foxhound/forge_thread.py:168-184 | every turn lowers the number of entries plus cuttable bodies plus one if too long; the branch that gives up is never reached |
| ForgeThread.Bounded | src/foxhound/forge_thread.py:168-185 | the loop ends on every thread, with a JSON text of at most 30,000 characters |
| ForgeThread.BoundedCutsOrDrops | src/foxhound/forge_thread.py:168-185 | the loop either drops nothing and cuts bodies to a start and the marker, longest first, at most one of them in part; or it drops entries from the end, no review before the last comment, with every body already gone |
| ForgeThread.DropsNoMoreThanNeeded | src/foxhound/forge_thread.py:178-181 | putting the last dropped entry back would exceed the limit |
| ForgeThread.BoundedKeepsAllIff | src/foxhound/forge_thread.py:168-185 | the result is the input exactly when the input's text has at most 30,000 characters |
| ThreadBounder.Turn | src/foxhound/forge_thread.py:169-183 | the loop's body on shared entry objects makes the specified turn and never comes to its `break` |
| ThreadBounder.BoundEntries | src/foxhound/forge_thread.py:160-185 | the kept lists are starts of the given ones and hold the bounded thread; truncated says exactly whether entries were missing or the text was too long; not truncated means nothing changed |
| ChangeReviews.CardsMoveForward | src/foxhound/change_reviews.py:121-259 | a transaction leaves a card alone or moves it forward, and leaves a resolved card alone |
| ChangeReviews.TokensMarkDeliveries | src/foxhound/change_reviews.py:134-159 | in every run a token and a lease end are stored exactly while the card is out for delivery |
| ChangeReviews.CardsNeverGoBack | src/foxhound/change_reviews.py:121-259 | between any two points of a run a card is the same or further, its version does not fall, and a resolved card is the same |
| ChangeReviews.ClaimsAreAnsweredOnce | src/foxhound/change_reviews.py:180-219 | a claim's version is applied at most once in a run, by a completion or by a failure |
| ChangeReviews.OnlyTheHolderIsHeeded | src/foxhound/change_reviews.py:282-295 | whoever completes or fails a delivery has the token and version of an earlier claim whose lease has not run out and since which the card was not returned, claimed or touched |
| ChangeReviews.ReportRefusals | src/foxhound/change_reviews.py:180-219 | exactly when a completion or a failure is applied, repeated, unknown, stale, from another holder, or too late |
| ChangeReviews.DeliveredAtMostOnce | src/foxhound/change_reviews.py:180-219 | a card is delivered at most once, under whatever versions |
| ChangeReviews.ActMeans | src/foxhound/change_reviews.py:221-279 | an action is applied exactly when the card is delivered at that version and, for an undo, its item is closed at the recorded version; it then changes that card and, for an undo, reopens that item; a refusal changes nothing |
| ChangeReviews.ActRefusals | src/foxhound/change_reviews.py:221-279 | exactly when an action is refused as unknown, stale, not open, in conflict with the item, or not a known action |
| ChangeReviews.ResolvedAtMostOnce | src/foxhound/change_reviews.py:221-259 | a card is resolved at most once, and is never changed afterwards |
| ChangeReviews.ReopenedAtMostOnce | src/foxhound/change_reviews.py:263-279 | two undos of one ledger item, by whatever cards, reopen it at different recorded versions, the later one higher |
| ChangeReviews.OnlyUndoTouchesTasks | src/foxhound/change_reviews.py:121-279 | no other transaction on cards changes the ledger |
| ChangeReviews.ClaimTakesTheOldest | src/foxhound/change_reviews.py:126-161 | a claim hands out the lowest card that waits or whose lease has run out, none only if there is none; the lease runs for the seconds asked for, cut to a whole second, under the given token; running leases are not disturbed, and the others that have run out end |
| ReviewService.ChangeReviewService.RecordChange | src/foxhound/change_reviews.py:57-77 | a card is made exactly for a known kind and an item that is there; it is new, at version 1, free to claim, records the item's version at that moment and at most 200 characters |
| ReviewService.ChangeReviewService.ClaimNextCard | src/foxhound/change_reviews.py:121-166 | the two loops of a claim, over expired leases and waiting cards, take the specified step |
| ReviewService.ChangeReviewService.FinishClaim | src/foxhound/change_reviews.py:180-219 | a report is applied exactly for the version and token of a lease that runs; the card is then delivered under that version or waits under the next, without token or lease, and no other card changes |
| ReviewService.ChangeReviewService.ActOnCard | src/foxhound/change_reviews.py:221-259 | actions take the specified step, and a refusal leaves both tables as they were |
| TranscriptScan.PlacesFit | src/foxhound/execution_runner.py:1286-1325 | in every run of polls of an append-only file the overlap is the end of what was read, in every later state of the file |
| TranscriptScan.WindowIsOneSlice | src/foxhound/execution_runner.py:1308-1322 | with at most 256 KiB new the window is one slice up to the end of the file; with more, exactly the bytes in between are skipped |
| TranscriptScan.NextLow | src/foxhound/execution_runner.py:1322-1325 | the next window reaches back min(1024, bytes read), never before an earlier one and never before what was just read |
| TranscriptScan.SeenIsInWindow | src/foxhound/execution_runner.py:1308-1325 | a text that a poll sees occurs in its window, at the place its side of the window gives |
| TranscriptScan.TextIsSeenIff | src/foxhound/execution_runner.py:1286-1325 | in every run a text is seen by some poll exactly when the poll that reads past its last byte reads all of it, or skips nothing and reaches back to its first byte |
| TranscriptScan.TwoReadsAreSeen | src/foxhound/execution_runner.py:1286-1325 | a text with at most 1024 bytes in one read and the rest in the next, which skips nothing, is seen |
| TranscriptScan.FoundIsReal | src/foxhound/execution_runner.py:1308-1325 | without overlap, or with at most 256 KiB new, the window is the end of the file and contains no text that the file does not |
| TranscriptScan.RunsFindReal | src/foxhound/execution_runner.py:1308-1325 | in every run a poll that skips nothing, or has no overlap, finds only what is in the file, whatever other polls skipped |
| TranscriptScan.NeverDeceivesIff | src/foxhound/execution_runner.py:1313-1323 | from a given offset, overlap and file size no file can seem to contain a text that it does not, exactly when there is no overlap or at most 256 KiB is new |
| TranscriptScan.ThreeReadsCanMiss | src/foxhound/execution_runner.py:1324-1325 | three polls that keep up and all fail to find a text that is in the transcript |
| TranscriptScan.GapsCanDeceive | src/foxhound/execution_runner.py:1313-1323 | a file without the refusal in which it is found |
| Runner.TerminalMeans | src/foxhound/execution_runner.py:1220-1251 | exactly when a view of the workflow lets the run go on, records it, releases it or loses the claim, on the fields of the view and of the first one |
| Runner.FailureIsJustified | src/foxhound/execution_runner.py:1500-1542 | a failure that the service does not take ends as lost, or as what the workflow then shows, and either is backed by the turn |
| Runner.ResultsAreJustified | src/foxhound/execution_runner.py:836-1034 | whatever ends a run, its exit code is 0 exactly for recorded or released, and its outcome is backed by that turn: a view of the workflow, a lease that was due and not renewed, a deadline that has come, or a failure the service took or did not |
| Runner.GoesOnIff | src/foxhound/execution_runner.py:836-1034 | a turn sleeps exactly when the workflow is still held, no child has exited and the deadline has not come; it relaunches exactly when held, the child has exited, and the branch is open; nothing else goes on |
| Runner.DecisionTable | src/foxhound/execution_runner.py:836-1034 | each case that ends a run, in the order tried, with its outcome and exit code: 128 and the signal's number, 70, 138, 124, the child's own, or what a view of the workflow says |
| Runner.SuccessIsReported | src/foxhound/execution_runner.py:1233-1251 | in whatever turn an undisturbed run is first seen with a new result, or back in the queue without one, it ends there with exit code 0 as recorded, or as released |
| Runner.TakeTurn | src/foxhound/execution_runner.py:836-1034 | the loop's body, branch after branch, comes to the specified decision |
| Runner.CorrectionsAreFew | src/foxhound/execution_runner.py:918-975 | a run launches at most two corrective processes, the second only if the transcript held a textual call when the first was launched |
| Runner.MayCorrectIff | src/foxhound/execution_runner.py:918-929 | a corrective process is allowed exactly as the first, or as the second if the transcript held a textual call when the first was launched |
| Runner.ClockIsBounded | src/foxhound/execution_runner.py:850-1034 | no turn of a run reads the clock later than one turn for each launch after the deadline |
| Runner.RenewalsKeepUp | src/foxhound/execution_runner.py:851-887 | renewals are at most a heartbeat and a turn apart, and so is every turn from the last of them |
| Runner.OutlastsIff | src/foxhound/execution_runner.py:908-989 | some turn before the last is at or past the deadline exactly when at such a turn the branch that relaunches is open; every such turn relaunches |
| Runner.ARunMayOutlast | src/foxhound/execution_runner.py:908-989 | with the times of the built-in profile, a run that relaunches at its deadline and stops at twice its timeout |
| Runner.Supervise | src/foxhound/execution_runner.py:836-1034 | the loop ends for every child, service and clock, however long its turns take, in the first turn that ends it and with that turn's justified result; a new result in the first view ends it at once as recorded with exit code 0; launches are one more than the corrections, at most three; a timeout is reported only past the deadline; renewals and stop keep the two bounds when the turns are bounded |
| Catalog.EntryRoundTrip | src/foxhound/agent_profiles.py:217-225 | an entry's document parses back to it exactly when it is a valid entry under its own id |
| Catalog.AcceptedIff | src/foxhound/agent_profiles.py:834-867 | a document is accepted under an id, as an entry, exactly when that entry is valid, of this id, and the document is its own, up to variants spelled out as null |
| Catalog.EntriesMean | src/foxhound/agent_profiles.py:834-867 | when an entry is valid, in plain values: 1 to 32 different revisions of 64 hex digits, the current one last, and variants named like ids that point into the history |
| Catalog.DocumentsMean | src/foxhound/agent_profiles.py:217-225 | what the members of an entry's document are called and hold |
| Catalog.CatalogRoundTrip | src/foxhound/agent_profiles.py:782-879 | a catalog's document parses back to it exactly when it is a valid catalog |
| Catalog.ParsedEntryBack | src/foxhound/agent_profiles.py:807-867 | an accepted entry is valid, and is written back as read exactly when its variants were not spelled out as null |
| Catalog.ParsedCatalogBack | src/foxhound/agent_profiles.py:782-879 | an accepted catalog is valid, and is written back as read exactly when no profile spells out null variants |
| Catalog.MaterializedIsEntry | src/foxhound/agent_profiles.py:227-245 | a materialized entry is valid, has the same revisions, as many, and offers the variant's one, last |
| Catalog.MaterializedHistory | src/foxhound/agent_profiles.py:227-245 | the variant's revision moves from its place in the history to the end, the others keep their order, and no variants remain |
| CatalogParser.ParseVariantDict | src/foxhound/agent_profiles.py:807-831 | the loop over variants fills the specified dictionary or refuses |
| CatalogParser.ParseCatalogDocument | src/foxhound/agent_profiles.py:782-804 | the loop over profiles fills the specified dictionary or refuses |
| Registry.BuildRegistry | src/foxhound/agent_profiles.py:258-283 | a registry is built exactly when ids, and ids with revisions, do not repeat and something is selectable; it then holds exactly the given profiles |
| Registry.LoadStore | src/foxhound/agent_profiles.py:726-751 | the store loads exactly when every revision in every history has its file; it offers exactly the active revisions and keeps exactly the others |
| Registry.LoadRegistry | src/foxhound/agent_profiles.py:606-613 | for a valid catalog the registry's own refusals never come: it exists exactly when the files are readable, resolves exactly the built-in and pinned revisions, and lists exactly the active ones |
| Registry.VariantsKeepPinnedRevisions | src/foxhound/agent_profiles.py:227-318 | selecting a variant leaves every pinned revision resolving to the same profile and the same ids listed, and changes only which revision each offers |
| Registry.VariantsLoadAlike | src/foxhound/agent_profiles.py:227-245 | a materialized catalog loads exactly when the original does |
| FusedTitles.ReadyExactlyWhenTitled | src/foxhound/fused_task_titles.py:56-74 | in every run, overlapping passes included, a job is ready exactly when it has a title |
| FusedTitles.ReadyTitleComesFrom | src/foxhound/fused_task_titles.py:105-173 | a ready title was published by a pass, from the texts read at its claim, and nobody has asked since |
| FusedTitles.RequestsMean | src/foxhound/fused_task_titles.py:56-89 | what an enqueue, a clear and a refresh do to the job and to nothing else |
| FusedTitles.ClaimsMean | src/foxhound/fused_task_titles.py:111-141 | a claim takes the job that has waited longest, counting those that have run for ten minutes as waiting from now on, and none only if none waits; it reads that job's texts |
| FusedTitles.PublicationsMean | src/foxhound/fused_task_titles.py:141-170 | a publication touches its own job only, and only if that is running: ready with a usable title, waiting again without, the attempt not counted after a timeout |
| FusedTitles.SourceTextsAre | src/foxhound/fused_task_titles.py:207-218 | the texts asked about are the item's own and those of its live duplicates in the order of their ids, empty ones left out |
| FusedTitles.OutdatedIff | src/foxhound/fused_task_titles.py:105-173 | between a pass's claim and its publication somebody asked exactly when in between another pass claimed the job after somebody had asked |
| FusedTitles.SerializedTitlesAreFresh | src/foxhound/fused_task_titles.py:56-173 | with one pass at a time, a ready title was published by a pass from the texts read at a claim that no enqueue, clear or refresh has followed |
| FusedTitles.OverlappingPassesPublishOldTitles | src/foxhound/fused_task_titles.py:139-147 | two overlapping passes that leave an outdated title ready and nothing pending |
| TitleStore.FusedTitleStore.ClaimJob | src/foxhound/fused_task_titles.py:111-137 | the claim revives stale jobs, picks the pending one updated first, and takes the specified step |
| TitleStore.FusedTitleStore.PublishTitle | src/foxhound/fused_task_titles.py:144-170 | the publication takes the specified step and counts as completed exactly when it made a running job ready |
| TitleStore.FusedTitleStore.RefreshAfterWithdrawal | src/foxhound/fused_task_titles.py:77-89 | the job is left pending without a title exactly while a live duplicate remains in the relation table; otherwise a job there was is idle, none is made, and no other job changes |

## Left out

- Import timestamps, schema migrations, column maps and the other tables of the inbox database.
- Document parsing: JSON text, the candidate, feed and shadow contracts beyond what the inbox relies on, and the limit on items per page.
- The directory listing and file checks of `_read_snapshot`: `Snapshot.ReadSnapshot` is given the recognised pages in name order; lock, temporary and unrecognised files, file modes and ownership are not modelled.
- Hash collisions, token generation, regular expression matching, and repeated process start identities.
- Dispatch: argument validation of `start`, prompt and credential files, the child's output, `wait` and `log`, the last edit stamp, and the signal that follows a cancel. `Lane` joins the loop to the shared world by its last write; that a cancel's signal reaches the loop as a request is left to the environment, and a child that cannot be launched is one of the outcomes the finishing step takes. The shared world's clock counts whole seconds, as the stored stamps do.
- Forge threads: the queries, titles and bodies of the thread itself, and the reading of entries from the reply. A login is taken to be a text.
- Cards: rendering, kinds other than a flag for a known one, the before state, and resolution stamps.
- Runner: building the command line and the environment, terminating the process group, run directories and `cleanup_runs`, and the evidence left by a timeout. The search pattern of the scan is any predicate on bytes.
- Profiles: prompts, rendering, field validation, and reading manifests; a profile is its id, revision and content.
- Fused titles: the request to the gateway and the rules for a usable reply; an unusable one is the empty title.
- Network clients, forge commands, card text, argument parsing and deployment configuration: plumbing with claims about single branches.

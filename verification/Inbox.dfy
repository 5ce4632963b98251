/** The inbox as it runs: tables updated in place, one transaction a call. */
module Inbox {
  import opened Candidate
  import opened InboxTables
  import opened InboxHistory
  import opened Outbox
  import opened Options

  /** A call answers, or refuses a document that does not parse. */
  datatype Outcome<R> = InvalidContract | Answer(result: R)

  class CandidateInbox {
    var inbox: map<Identity, InboxRow>
    var history: map<HistoryKey, HistoryRow>
    var lifecycle: map<Identity, LifecycleRow>
    var feedCursors: map<Stream, nat>
    var feedReceipts: map<ReceiptKey, Page>
    var feedItems: map<ItemKey, HistoryKey>
    var observations: map<HistoryKey, ObservationRow>
    var shadowCursors: map<Stream, nat>
    var shadowReceipts: map<ReceiptKey, ShadowPage>

    function Candidates(): Book
      reads this
    {
      Book(inbox, history, lifecycle)
    }

    function View(): Tables
      reads this
    {
      Tables(Candidates(), Feed(feedCursors, feedReceipts, feedItems), Shadow(observations, shadowCursors, shadowReceipts))
    }

    constructor ()
      ensures View() == NO_TABLES
    {
      inbox, history, lifecycle := map[], map[], map[];
      feedCursors, feedReceipts, feedItems := map[], map[], map[];
      observations, shadowCursors, shadowReceipts := map[], map[], map[];
    }

    /** Inside the caller's transaction. A raise may leave rows behind for the
        caller to roll back. */
    method ApplyCandidate(c: TaskCandidate) returns (r: ImportResult)
      modifies `inbox, `history, `lifecycle
      ensures r == Decide(IsContractUpgrade, old(Candidates()), c)
      ensures !r.Failed? ==> Candidates() == Apply(IsContractUpgrade, old(Candidates()), c)
    {
      hide IsContractUpgrade;
      var id, key := c.identity, Key(c);
      if id !in inbox {
        if key in history {
          return Failed(HistoryIsInconsistent);
        }
        inbox := inbox[id := RowOf(c)];
        history := history[key := HistoryRow(c, c.createdAt)];
        if id in lifecycle {
          return Failed(KeyViolated);
        }
        lifecycle := lifecycle[id := LifecycleOf(c)];
        return Inserted;
      }
      var row := inbox[id];
      if row.createdAt != c.createdAt {
        return Refused(CreatedAtConflict);
      }
      if id !in lifecycle {
        return Failed(LifecycleIsIncomplete);
      }
      var current, incoming := lifecycle[id].generation, c.lifecycle.generation;
      var contractUpgrade := IsContractUpgrade(row.payload, c);
      if incoming < current && !contractUpgrade {
        return Refused(StaleGeneration);
      }
      if incoming == current && incoming > 0 && (row.revision != c.revision || row.payload != c) && !contractUpgrade {
        return Refused(GenerationConflict);
      }
      if incoming > current && current > 0 && incoming != current + 1 && !contractUpgrade {
        return Refused(GenerationGap);
      }
      if key in history {
        var stored := history[key];
        if stored.createdAt != c.createdAt {
          return Refused(CreatedAtConflict);
        }
        if stored.payload != c {
          return Refused(RevisionConflict);
        }
        if row.revision == c.revision && row.payload != c {
          return Failed(InboxAndHistoryAreInconsistent);
        }
        return Unchanged;
      }
      if row.revision == c.revision {
        return Failed(HistoryIsIncomplete);
      }
      history := history[key := HistoryRow(c, c.createdAt)];
      inbox := inbox[id := row.(revision := c.revision, payload := c)];
      lifecycle := lifecycle[id := LifecycleOf(c)];
      return Updated;
    }

    method ImportDocument(document: Option<TaskCandidate>) returns (r: Outcome<ImportResult>)
      modifies this
      ensures document.None? ==> r == InvalidContract && View() == old(View())
      ensures document.Some? ==>
        var (tables, result) := InboxTables.ImportDocument(IsContractUpgrade, old(View()), document.value);
        View() == tables && r == Answer(result)
    {
      hide Decide, IsContractUpgrade;
      if document.None? {
        return InvalidContract;
      }
      var savedInbox, savedHistory, savedLifecycle := inbox, history, lifecycle;
      var result := ApplyCandidate(document.value);
      if !result.Accepted() {
        inbox, history, lifecycle := savedInbox, savedHistory, savedLifecycle;
      }
      return Answer(result);
    }

    method ImportFeed(document: Option<Page>) returns (r: Outcome<FeedResult>)
      modifies this
      ensures document.None? ==> r == InvalidContract && View() == old(View())
      ensures document.Some? ==>
        var (tables, result) := InboxTables.ImportFeed(IsContractUpgrade, old(View()), document.value);
        View() == tables && r == Answer(result)
    {
      hide Decide, Apply, IsContractUpgrade;
      if document.None? {
        return InvalidContract;
      }
      var feed := document.value;
      var currentCursor := Cursor(feedCursors, feed.stream);
      if feed.from < currentCursor {
        if feed.Receipt() !in feedReceipts {
          return Answer(FeedRefused(CursorOverlap));
        }
        if feedReceipts[feed.Receipt()] != feed {
          return Answer(FeedRefused(CursorReuse));
        }
        return Answer(Replayed);
      }
      if feed.from > currentCursor {
        return Answer(FeedRefused(CursorGap));
      }
      if feed.from == feed.to {
        return Answer(Empty);
      }
      var savedInbox, savedHistory, savedLifecycle, savedItems := inbox, history, lifecycle, feedItems;
      var counts := ZERO;
      ghost var whole := ApplyItems(IsContractUpgrade, Candidates(), feedItems, feed, 0, ZERO);
      for k := 0 to |feed.items|
        invariant ApplyItems(IsContractUpgrade, Candidates(), feedItems, feed, k, counts) == whole
        invariant feedCursors == old(feedCursors) && feedReceipts == old(feedReceipts)
        invariant Shadow(observations, shadowCursors, shadowReceipts) == old(View()).shadow
      {
        var candidate := feed.items[k];
        var result := ApplyCandidate(candidate);
        if result.Accepted() && At(feed, k) !in feedItems {
          counts := counts.Counting(result);
          feedItems := feedItems[At(feed, k) := Key(candidate)];
        } else {
          inbox, history, lifecycle, feedItems := savedInbox, savedHistory, savedLifecycle, savedItems;
          return Answer(match result
                        case Refused(refusal) => FeedRefused(CandidateConflict(refusal, candidate.identity))
                        case Failed(error) => FeedFailed(error)
                        case _ => FeedFailed(KeyViolated));
        }
      }
      if feed.Receipt() in feedReceipts {
        inbox, history, lifecycle, feedItems := savedInbox, savedHistory, savedLifecycle, savedItems;
        return Answer(FeedFailed(KeyViolated));
      }
      feedReceipts := feedReceipts[feed.Receipt() := feed];
      feedCursors := feedCursors[feed.stream := feed.to];
      return Answer(Applied(counts));
    }

    method ImportShadowFeed(document: Option<ShadowPage>) returns (r: Outcome<ShadowResult>)
      modifies `observations, `shadowCursors, `shadowReceipts
      ensures document.None? ==> r == InvalidContract && View() == old(View())
      ensures document.Some? ==>
        var (tables, result) := InboxTables.ImportShadowFeed(old(View()), document.value);
        View() == tables && r == Answer(result)
    {
      if document.None? {
        return InvalidContract;
      }
      var feed := document.value;
      var currentCursor := Cursor(shadowCursors, feed.stream);
      if feed.from < currentCursor {
        if feed.Receipt() !in shadowReceipts {
          return Answer(ShadowRefused(ShadowOverlap));
        }
        if shadowReceipts[feed.Receipt()] != feed {
          return Answer(ShadowRefused(ShadowReuse));
        }
        return Answer(ShadowReplayed);
      }
      if feed.from > currentCursor {
        return Answer(ShadowRefused(ShadowGap));
      }
      if feed.from == feed.to {
        return Answer(ShadowEmpty);
      }
      var saved := observations;
      var inserted, untouched := 0, 0;
      ghost var whole := ApplyObservations(history, observations, feed, 0, 0, 0);
      for k := 0 to |feed.items|
        invariant ApplyObservations(history, observations, feed, k, inserted, untouched) == whole
        invariant shadowCursors == old(shadowCursors) && shadowReceipts == old(shadowReceipts)
      {
        var observation := feed.items[k];
        var decision := DecideObservation(history, observations, observation);
        match decision
        case ObservationRefused(reason) =>
          observations := saved;
          return Answer(ShadowRefused(reason));
        case ObservationInserted =>
          observations := observations[Key(observation.candidate) := ObservationRowOf(observation)];
          inserted := inserted + 1;
        case ObservationUnchanged =>
          untouched := untouched + 1;
      }
      if feed.Receipt() in shadowReceipts {
        observations := saved;
        return Answer(ShadowFailed(KeyViolated));
      }
      shadowReceipts := shadowReceipts[feed.Receipt() := feed];
      shadowCursors := shadowCursors[feed.stream := feed.to];
      return Answer(ShadowApplied(inserted, untouched));
    }

    method FeedCursor(s: Stream) returns (cursor: nat)
      ensures cursor == Cursor(View().feed.cursors, s)
    {
      return if s in feedCursors then feedCursors[s] else 0;
    }
  }

  datatype OutboxResult =
    | Imported(previous: nat, current: nat, seen: nat, applied: nat, replayed: nat, counts: Tally)
    | CursorAhead
    | PageRefused(page: nat, reason: FeedResult)

  /** `import_outbox` on a snapshot already read: it does what the page loop
      does, and reports the loop's counters. */
  method ImportSnapshot(inbox: CandidateInbox, pages: seq<Page>, s: Stream) returns (r: OutboxResult)
    modifies inbox
    ensures var (tables, ending) := ImportOutbox(IsContractUpgrade, old(inbox.View()), pages, s);
      && inbox.View() == tables
      && (ending == LedgerBehind <==> r.CursorAhead?)
      && (ending.StoppedAt? <==> r.PageRefused?) && (r.PageRefused? ==> r.page == ending.page)
    ensures var done := Import(IsContractUpgrade, old(inbox.View()), pages);
      r.Imported? ==>
        && (r.applied, r.replayed, r.counts, r.seen) == (done.applied, done.replayed, done.counts, |pages|)
        && r.previous == Cursor(old(inbox.View()).feed.cursors, s) && r.current == Cursor(done.tables.feed.cursors, s)
    ensures r.PageRefused? ==>
              && r.page < |pages|
              && r.reason == InboxTables.ImportFeed(IsContractUpgrade, inbox.View(), pages[r.page]).1
              && !r.reason.Accepted()
  {
    hide InboxTables.ImportFeed, IsContractUpgrade;
    ghost var start := inbox.View();
    var previous := inbox.FeedCursor(s);
    if previous > End(pages) {
      return CursorAhead;
    }
    var applied, replayed, counts := 0, 0, ZERO;
    for k := 0 to |pages|
      invariant Import(IsContractUpgrade, start, pages[..k]) == Progress(inbox.View(), None, applied, replayed, counts)
    {
      ImportOfLonger(IsContractUpgrade, start, pages, k);
      ghost var before := inbox.View();
      var answer := inbox.ImportFeed(Some(pages[k]));
      RefusalKeepsTables(IsContractUpgrade, before, pages[k]);
      match answer.result
      case Applied(more) =>
        applied, counts := applied + 1, Sum(counts, more);
      case Replayed =>
        replayed := replayed + 1;
      case Empty =>
      case refusal =>
        StoppedStays(IsContractUpgrade, start, pages, k + 1, |pages|);
        assert pages[..|pages|] == pages;
        return PageRefused(k, refusal);
    }
    assert pages[..|pages|] == pages;
    var current := inbox.FeedCursor(s);
    return Imported(previous, current, |pages|, applied, replayed, counts);
  }

  /** `shadow_report`: one pass over the rows, counting comparisons. */
  method ShadowReport(inbox: CandidateInbox) returns (r: Report)
    ensures r == ReportOf(inbox.View().shadow)
  {
    var rows := inbox.observations;
    var left := rows.Keys;
    var agreed, divergent, declined, unmapped := 0, 0, 0, 0;
    ghost var sh := inbox.View().shadow;
    while left != {}
      invariant left <= rows.Keys
      invariant agreed == |WithComparison(sh, Agreed) - left|
      invariant divergent == |WithComparison(sh, Divergent) - left|
      invariant declined == |WithComparison(sh, NotComparable(Declined)) - left|
      invariant unmapped == |WithComparison(sh, NotComparable(Unmapped)) - left|
      decreases |left|
    {
      var key :| key in left;
      var comparison := rows[key].comparison;
      CountOne(sh, left, key);
      left := left - {key};
      match comparison
      case Agreed => agreed := agreed + 1;
      case Divergent => divergent := divergent + 1;
      case NotComparable(disposition) =>
        if disposition == Declined {
          declined := declined + 1;
        } else if disposition == Unmapped {
          unmapped := unmapped + 1;
        }
    }
    return Report(|rows|, agreed, divergent, declined, unmapped);
  }

  lemma CountOne(sh: Shadow, left: set<HistoryKey>, key: HistoryKey)
    requires key in left && left <= sh.observations.Keys
    ensures forall comparison ::
      |WithComparison(sh, comparison) - (left - {key})| ==
      |WithComparison(sh, comparison) - left| + if sh.observations[key].comparison == comparison then 1 else 0
  {
    forall comparison
      ensures |WithComparison(sh, comparison) - (left - {key})| ==
        |WithComparison(sh, comparison) - left| + if sh.observations[key].comparison == comparison then 1 else 0
    {
      var some := WithComparison(sh, comparison);
      if sh.observations[key].comparison == comparison {
        assert some - (left - {key}) == (some - left) + {key};
      } else {
        assert some - (left - {key}) == some - left;
      }
    }
  }
}

/** What the importers report: the counters of an outbox import are what the tables
    gained, and each answer to a shadow page is given exactly when it should be. */
module ImportCounts {
  import opened Candidate
  import opened InboxTables
  import opened InboxAgreement
  import opened InboxDecisions
  import opened InboxRuns
  import opened Outbox
  import opened Options

  // ----- the counters of an import -----

  function WithItems(pages: seq<Page>): nat {
    if pages == [] then 0
    else WithItems(pages[..|pages| - 1]) + (if pages[|pages| - 1].from < pages[|pages| - 1].to then 1 else 0)
  }

  /** How many pages the loop was through with. */
  function Passed(at: Progress, pages: seq<Page>): nat {
    if at.refused.Some? then at.refused.value else |pages|
  }

  /** The counters `at` say what `now` gained over `before`. */
  ghost predicate Tells(at: Progress, before: Tables, s: Stream) {
    var now := at.tables;
    && at.counts.inserted == |now.book.inbox| - |before.book.inbox|
    && at.counts.inserted + at.counts.updated == |now.book.history| - |before.book.history|
    && at.counts.Total() == Cursor(now.feed.cursors, s) - Cursor(before.feed.cursors, s)
    && at.applied == |now.feed.receipts| - |before.feed.receipts|
  }

  /** What an applied page with answer `r` adds to the tables. */
  ghost predicate Gains(t: Tables, later: Tables, r: FeedResult, p: Page) {
    && r.Applied? && p.from < p.to
    && r.counts.inserted == |later.book.inbox| - |t.book.inbox|
    && r.counts.inserted + r.counts.updated == |later.book.history| - |t.book.history|
    && r.counts.Total() == Cursor(later.feed.cursors, p.stream) - Cursor(t.feed.cursors, p.stream)
    && |later.feed.receipts| == |t.feed.receipts| + 1
  }

  /** One page: what it adds to the tables, by its answer. */
  lemma PageGains(up: Upgrading, t: Tables, p: Page)
    requires Inv(t)
    ensures var (later, r) := ImportFeed(up, t, p);
      if r.Applied? then Gains(t, later, r, p) else later == t
    ensures ImportFeed(up, t, p).1.Replayed? ==> p.from < p.to
    ensures ImportFeed(up, t, p).1.Empty? ==> p.from == p.to
  {
    hide Inv, ApplyItems, Gains;
    if ImportFeed(up, t, p).1.Applied? {
      AppliedGains(up, t, p);
    }
    if p.Receipt() in t.feed.receipts {
      ReceiptEndsBehindCursor(t, p);
    }
  }

  lemma AppliedGains(up: Upgrading, t: Tables, p: Page)
    requires Inv(t) && ImportFeed(up, t, p).1.Applied?
    ensures Gains(t, ImportFeed(up, t, p).0, ImportFeed(up, t, p).1, p)
  {
    hide Agrees, Tiles, ObservationsAgree, ApplyItems, ImportFeed;
    TallyCountsRows(up, t.book, t.feed.items, p, 0, ZERO);
    AppliedMoves(up, t, p);
  }

  ghost predicate Moves(t: Tables, applied: ItemsResult, later: Tables, r: FeedResult, p: Page) {
    && r.Applied? && applied.ItemsApplied? && later.book == applied.book && r.counts == applied.counts
    && |later.feed.receipts| == |t.feed.receipts| + 1
    && Cursor(t.feed.cursors, p.stream) == p.from < p.to == Cursor(later.feed.cursors, p.stream)
  }

  lemma AppliedMoves(up: Upgrading, t: Tables, p: Page)
    requires ImportFeed(up, t, p).1.Applied?
    ensures Moves(t, ApplyItems(up, t.book, t.feed.items, p, 0, ZERO), ImportFeed(up, t, p).0, ImportFeed(up, t, p).1, p)
  {
    hide ApplyItems;
    assert ImportFeed(up, t, p).0.feed.receipts == t.feed.receipts[p.Receipt() := p];
  }

  /** In every import: inserted is the rows the inbox gained, inserted and updated
      the revisions the history gained, all three counts together the way the cursor
      went; applied is the receipts gained, and with replayed makes the pages with
      items that the loop was through with. */
  lemma {:induction false} CountersMean(up: Upgrading, t: Tables, pages: seq<Page>, s: Stream)
    requires Inv(t) && Chain(pages, s)
    ensures var r := Import(up, t, pages);
      && Tells(r, t, s) && Passed(r, pages) <= |pages|
      && r.applied + r.replayed == WithItems(pages[..Passed(r, pages)])
    decreases |pages|
  {
    hide Inv, ImportFeed, Advance, Tells;
    if pages == [] {
      NothingTells(up, t, s);
    } else {
      var n := |pages| - 1;
      ChainPrefix(pages, s, n);
      ChainAt(pages, s, n);
      CountersMean(up, t, pages[..n], s);
      ImportMovesCursor(up, t, pages[..n], s);
      var at := Import(up, t, pages[..n]);
      assert pages[..|pages|] == pages;
      if at.refused.Some? {
        assert pages[..n][..at.refused.value] == pages[..at.refused.value];
      } else {
        assert pages[..n][..n] == pages[..n];
        AdvanceCounts(up, t, at, pages[n], n, s);
      }
    }
  }

  lemma NothingTells(up: Upgrading, t: Tables, s: Stream)
    ensures Tells(Import(up, t, []), t, s)
  {
    hide ImportFeed, Advance;
    assert Import(up, t, []) == Progress(t, None, 0, 0, ZERO);
  }

  lemma AdvanceCounts(up: Upgrading, before: Tables, at: Progress, p: Page, index: nat, s: Stream)
    requires Inv(at.tables) && Tells(at, before, s) && p.stream == s && at.refused.None?
    ensures var next := Advance(up, at, p, index);
      && Tells(next, before, s)
      && (next.refused.None? ==>
            next.applied + next.replayed == at.applied + at.replayed + (if p.from < p.to then 1 else 0))
      && (next.refused.Some? ==>
            next.refused == Some(index) && next.applied == at.applied && next.replayed == at.replayed)
  {
    hide Inv, ImportFeed;
    PageGains(up, at.tables, p);
  }

  // ----- shadow pages -----

  /** The observations stored before item `k` of page `p`. */
  function StoredAt(h: map<HistoryKey, HistoryRow>, stored: map<HistoryKey, ObservationRow>, p: ShadowPage, k: nat)
    : map<HistoryKey, ObservationRow>
    requires k <= |p.items|
  {
    if k == 0 then stored
    else
      var before, o := StoredAt(h, stored, p, k - 1), p.items[k - 1];
      if DecideObservation(h, before, o).ObservationInserted? then before[Key(o.candidate) := ObservationRowOf(o)]
      else before
  }

  ghost predicate TakenUpTo(h: map<HistoryKey, HistoryRow>, stored: map<HistoryKey, ObservationRow>, p: ShadowPage, k: nat)
    requires k <= |p.items|
  {
    forall i: nat | i < k :: !DecideObservation(h, StoredAt(h, stored, p, i), p.items[i]).ObservationRefused?
  }

  lemma TakenOneMore(h: map<HistoryKey, HistoryRow>, stored: map<HistoryKey, ObservationRow>, p: ShadowPage, k: nat)
    requires k < |p.items| && TakenUpTo(h, stored, p, k)
    ensures var refused := DecideObservation(h, StoredAt(h, stored, p, k), p.items[k]).ObservationRefused?;
      if refused then !TakenUpTo(h, stored, p, |p.items|) else TakenUpTo(h, stored, p, k + 1)
  {
    hide DecideObservation, StoredAt;
  }

  lemma {:induction false} ObservationsFrom(
      h: map<HistoryKey, HistoryRow>, stored: map<HistoryKey, ObservationRow>, p: ShadowPage, k: nat,
      inserted: nat, untouched: nat)
    requires k <= |p.items| && TakenUpTo(h, stored, p, k)
    ensures var r := ApplyObservations(h, StoredAt(h, stored, p, k), p, k, inserted, untouched);
      && (r.ObservationsApplied? <==> TakenUpTo(h, stored, p, |p.items|))
      && (r.ObservationsApplied? ==> r.observations == StoredAt(h, stored, p, |p.items|))
      && (r.ObservationsRefused? ==>
            exists i: nat | k <= i < |p.items| ::
              TakenUpTo(h, stored, p, i)
              && DecideObservation(h, StoredAt(h, stored, p, i), p.items[i]) == ObservationRefused(r.reason))
    decreases |p.items| - k
  {
    hide DecideObservation, ObservationRowOf, TakenUpTo, Key;
    if k < |p.items| {
      TakenOneMore(h, stored, p, k);
      var decision := DecideObservation(h, StoredAt(h, stored, p, k), p.items[k]);
      if !decision.ObservationRefused? {
        ObservationsFrom(h, stored, p, k + 1,
                         if decision.ObservationInserted? then inserted + 1 else inserted,
                         if decision.ObservationInserted? then untouched else untouched + 1);
      }
    }
  }

  /** A shadow page: behind its cursor its receipt decides, past it there is a gap,
      and at it the observations decide, all or none. */
  lemma ShadowAnswersIff(t: Tables, p: ShadowPage)
    requires Inv(t)
    ensures var (later, r) := ImportShadowFeed(t, p);
      var cursor, receipts := Cursor(t.shadow.cursors, p.stream), t.shadow.receipts;
      && (r == ShadowReplayed <==> p.from < cursor && p.Receipt() in receipts && receipts[p.Receipt()] == p)
      && (r == ShadowRefused(ShadowReuse) <==> p.from < cursor && p.Receipt() in receipts && receipts[p.Receipt()] != p)
      && (r == ShadowRefused(ShadowOverlap) <==> p.from < cursor && p.Receipt() !in receipts)
      && (r == ShadowRefused(ShadowGap) <==> p.from > cursor)
      && (r == ShadowEmpty <==> p.from == cursor == p.to)
      && (r.ShadowApplied? <==>
            p.from == cursor < p.to && TakenUpTo(t.book.history, t.shadow.observations, p, |p.items|))
      && (r.ShadowApplied? ==>
            && later.shadow.observations == StoredAt(t.book.history, t.shadow.observations, p, |p.items|)
            && Cursor(later.shadow.cursors, p.stream) == p.to
            && p.Receipt() in later.shadow.receipts && later.shadow.receipts[p.Receipt()] == p)
      && (!r.ShadowApplied? ==> later == t)
      && later.book == t.book && later.feed == t.feed
  {
    hide Agrees, Tiles, ApplyObservations, DecideObservation, TakenUpTo, StoredAt;
    if p.from == Cursor(t.shadow.cursors, p.stream) && p.from < p.to {
      NoneTaken(t.book.history, t.shadow.observations, p);
      ObservationsFrom(t.book.history, t.shadow.observations, p, 0, 0, 0);
      RefusalsAreObservations(t.book.history, t.shadow.observations, p);
    }
  }

  lemma NoneTaken(h: map<HistoryKey, HistoryRow>, stored: map<HistoryKey, ObservationRow>, p: ShadowPage)
    ensures StoredAt(h, stored, p, 0) == stored && TakenUpTo(h, stored, p, 0)
  {
  }

  /** An observation is never refused for a cursor. */
  lemma RefusalsAreObservations(h: map<HistoryKey, HistoryRow>, stored: map<HistoryKey, ObservationRow>, p: ShadowPage)
    ensures var r := ApplyObservations(h, stored, p, 0, 0, 0);
      r.ObservationsRefused? ==> r.reason in {CandidateMissing, ObservedCandidateConflict, ObservationConflict}
  {
    RefusalsFrom(h, stored, p, 0, 0, 0);
  }

  lemma {:induction false} RefusalsFrom(
      h: map<HistoryKey, HistoryRow>, stored: map<HistoryKey, ObservationRow>, p: ShadowPage, k: nat,
      inserted: nat, untouched: nat)
    requires k <= |p.items|
    ensures var r := ApplyObservations(h, stored, p, k, inserted, untouched);
      r.ObservationsRefused? ==> r.reason in {CandidateMissing, ObservedCandidateConflict, ObservationConflict}
    decreases |p.items| - k
  {
    hide ObservationRowOf;
    if k < |p.items| {
      var o := p.items[k];
      RefusalsFrom(h, stored, p, k + 1, inserted, untouched + 1);
      RefusalsFrom(h, stored[Key(o.candidate) := ObservationRowOf(o)], p, k + 1, inserted + 1, untouched);
    }
  }
}

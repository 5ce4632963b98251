/** What the inbox answers, in terms of what is stored: when a candidate, an
    observation or a page is accepted, and exactly why it is refused. */
module InboxDecisions {
  import opened Candidate
  import opened Options
  import opened InboxTables
  import opened InboxAgreement

  // ----- candidates -----

  /** The generation rule, for a stored row at generation `g`: an upgrade passes,
      and so does anything while `g` is 0, the next generation, or the same again. */
  predicate MayFollow(upgrade: bool, g: nat, row: TaskCandidate, c: TaskCandidate) {
    upgrade || g == 0 || c.lifecycle.generation == g + 1 || (c.lifecycle.generation == g && row == c)
  }

  /** A candidate without a row is inserted. */
  lemma NewCandidatesAreInserted(up: Upgrading, b: Book, c: TaskCandidate)
    requires Agrees(b)
    ensures Decide(up, b, c).Inserted? <==> c.identity !in b.inbox
  {
    AgreementRulesOutErrors(up, b, c);
    assert Key(c) in b.history ==> HistoryAgrees(b, Key(c));
  }

  /** A candidate with a row: each answer, exactly when. */
  lemma AnswersIff(up: Upgrading, b: Book, c: TaskCandidate)
    requires Agrees(b) && c.identity in b.inbox
    ensures var r := Decide(up, b, c);
      var row, g, incoming := b.inbox[c.identity], b.lifecycle[c.identity].generation, c.lifecycle.generation;
      var sameTime := row.createdAt == c.createdAt;
      var upgrade := up(row.payload, c);
      && (r == Refused(CreatedAtConflict) <==> !sameTime)
      && (r == Refused(StaleGeneration) <==> sameTime && incoming < g && !upgrade)
      && (r == Refused(GenerationConflict) <==> sameTime && incoming == g && g > 0 && row.payload != c && !upgrade)
      && (r == Refused(GenerationGap) <==> sameTime && incoming > g + 1 && g > 0 && !upgrade)
      && (r == Refused(RevisionConflict) <==>
            sameTime && MayFollow(upgrade, g, row.payload, c) && Key(c) in b.history && b.history[Key(c)].payload != c)
      && (r == Unchanged <==>
            sameTime && MayFollow(upgrade, g, row.payload, c) && Key(c) in b.history && b.history[Key(c)].payload == c)
      && (r == Updated <==>
            sameTime && Key(c) !in b.history && (upgrade || g == 0 || incoming == g + 1))
  {
    assert RowAgrees(b, c.identity);
    assert Key(c) in b.history ==> HistoryAgrees(b, Key(c));
  }

  /** What an accepted candidate leaves behind, column by column, and that nothing
      else is touched; any other answer leaves the tables alone. */
  lemma AcceptedIsStored(up: Upgrading, b: Book, c: TaskCandidate)
    ensures var r, later := Decide(up, b, c), Apply(up, b, c);
      if r.Inserted? || r.Updated? then
        && c.identity in later.inbox && c.identity in later.lifecycle && Key(c) in later.history
        && later.inbox[c.identity].revision == c.revision && later.inbox[c.identity].payload == c
        && later.inbox[c.identity].createdAt == c.createdAt
        && later.history[Key(c)].payload == c && later.history[Key(c)].createdAt == c.createdAt
        && later.lifecycle[c.identity].revision == c.revision
        && later.lifecycle[c.identity].state == c.lifecycle.state
        && later.lifecycle[c.identity].generation == c.lifecycle.generation
        && later.lifecycle[c.identity].changedAt == c.lifecycle.changedAt
        && later.inbox - {c.identity} == b.inbox - {c.identity}
        && later.lifecycle - {c.identity} == b.lifecycle - {c.identity}
        && later.history - {Key(c)} == b.history - {Key(c)}
      else later == b
  {
  }

  /** A run of updates: from generation `g > 0` the next generation of a candidate,
      under a new revision, is always accepted. */
  lemma NextGenerationIsAccepted(up: Upgrading, b: Book, c: TaskCandidate)
    requires Agrees(b) && c.identity in b.inbox && Key(c) !in b.history
    requires b.inbox[c.identity].createdAt == c.createdAt
    requires c.lifecycle.generation == b.lifecycle[c.identity].generation + 1
    ensures Decide(up, b, c) == Updated
    ensures Apply(up, b, c).lifecycle[c.identity].generation == b.lifecycle[c.identity].generation + 1
  {
    hide Decide, Agrees;
    AnswersIff(up, b, c);
    AcceptedIsStored(up, b, c);
  }

  // ----- observations -----

  /** Each answer to an observation, exactly when. */
  lemma ObservationAnswersIff(history: map<HistoryKey, HistoryRow>, stored: map<HistoryKey, ObservationRow>,
                              o: ParsedObservation)
    ensures var r := DecideObservation(history, stored, o);
      var known := Key(o.candidate) in history && history[Key(o.candidate)].payload == o.candidate;
      && (r == ObservationRefused(CandidateMissing) <==> Key(o.candidate) !in history)
      && (r == ObservationRefused(ObservedCandidateConflict) <==> Key(o.candidate) in history && !known)
      && (r == ObservationInserted <==> known && Key(o.candidate) !in stored)
      && (r == ObservationUnchanged <==>
            known && Key(o.candidate) in stored && stored[Key(o.candidate)].payload == o)
      && (r == ObservationRefused(ObservationConflict) <==>
            known && Key(o.candidate) in stored && stored[Key(o.candidate)].payload != o)
  {
  }

  /** The columns of a stored observation, and how it compares. */
  lemma ObservationColumns(o: ParsedObservation)
    ensures var row := ObservationRowOf(o);
      && row.payload == o && row.disposition == o.disposition && row.legacy == o.legacy && row.reason == o.reason
      && row.observedAt == o.observedAt
      && (row.comparison == Agreed <==>
            o.legacy.Some? && o.legacy.value.comparableDigest.text == o.candidate.task.text
            && o.legacy.value.comparableDigest.project == o.candidate.task.project
            && o.legacy.value.comparableDigest.owner == o.candidate.task.owner)
      && (row.comparison == NotComparable(o.disposition) <==> o.legacy.None?)
      && (row.comparison.Divergent? <==> o.legacy.Some? && row.comparison != Agreed)
  {
  }

  // ----- pages -----

  /** The tables before item `k` of page `p`, when the items before it are taken. */
  function BookAt(up: Upgrading, b: Book, p: Page, k: nat): Book
    requires k <= |p.items|
  {
    if k == 0 then b else Apply(up, BookAt(up, b, p, k - 1), p.items[k - 1])
  }

  /** Every item of page `p` before `k` is accepted in its turn. */
  ghost predicate AcceptedUpTo(up: Upgrading, b: Book, p: Page, k: nat)
    requires k <= |p.items|
  {
    forall i: nat | i < k :: Decide(up, BookAt(up, b, p, i), p.items[i]).Accepted()
  }

  lemma BookAtAgrees(up: Upgrading, b: Book, p: Page, k: nat)
    requires Agrees(b) && k <= |p.items|
    ensures Agrees(BookAt(up, b, p, k))
  {
    hide Agrees, Decide;
    if k > 0 {
      BookAtAgrees(up, b, p, k - 1);
      ApplyKeepsAgreement(up, BookAt(up, b, p, k - 1), p.items[k - 1]);
    }
  }

  /** The item loop from item `k` on: applied exactly if all the items left are
      accepted, and otherwise refused for the first that is not. */
  lemma {:induction false} LoopFrom(up: Upgrading, b: Book, items: map<ItemKey, HistoryKey>, p: Page, k: nat, counts: Tally)
    requires Agrees(b) && k <= |p.items| && AcceptedUpTo(up, b, p, k)
    requires forall n: nat | k <= n < |p.items| :: At(p, n) !in items
    ensures var r := ApplyItems(up, BookAt(up, b, p, k), items, p, k, counts);
      && (r.ItemsApplied? <==> AcceptedUpTo(up, b, p, |p.items|))
      && (r.ItemsApplied? ==> r.book == BookAt(up, b, p, |p.items|))
      && (r.ItemsRefused? ==>
            exists i: nat | k <= i < |p.items| ::
              AcceptedUpTo(up, b, p, i) && r.id == p.items[i].identity
              && Decide(up, BookAt(up, b, p, i), p.items[i]) == Refused(r.refusal))
    decreases |p.items| - k
  {
    hide Agrees, Decide, Apply;
    if k < |p.items| {
      var c, at := p.items[k], BookAt(up, b, p, k);
      BookAtAgrees(up, b, p, k);
      AgreementRulesOutErrors(up, at, c);
      if Decide(up, at, c).Accepted() {
        assert AcceptedUpTo(up, b, p, k + 1);
        LoopFrom(up, b, items[At(p, k) := Key(c)], p, k + 1, counts.Counting(Decide(up, at, c)));
      }
    }
  }

  /** A page that is not behind the cursor: a gap before it, nothing in it, or its
      items decide, all or none. An applied page moves the cursor to its end and
      leaves its receipt; nothing else is answered. */
  lemma PagesAtTheCursor(up: Upgrading, t: Tables, p: Page)
    requires Agrees(t.book) && Tiles(t.feed, t.book.history) && p.from >= Cursor(t.feed.cursors, p.stream)
    ensures var (later, r) := ImportFeed(up, t, p);
      var level := p.from == Cursor(t.feed.cursors, p.stream);
      && (r == FeedRefused(CursorGap) <==> !level)
      && (r == Empty <==> level && p.from == p.to)
      && (r.Applied? <==> level && p.from < p.to && AcceptedUpTo(up, t.book, p, |p.items|))
      && (r.Applied? ==>
            && Cursor(later.feed.cursors, p.stream) == p.to && later.book == BookAt(up, t.book, p, |p.items|)
            && p.Receipt() in later.feed.receipts && later.feed.receipts[p.Receipt()] == p
            && later.shadow == t.shadow)
      && (!r.Applied? ==> later == t)
      && (level && p.from < p.to && !r.Applied? ==>
            exists i: nat, refusal | i < |p.items| ::
              AcceptedUpTo(up, t.book, p, i) && Decide(up, BookAt(up, t.book, p, i), p.items[i]) == Refused(refusal)
              && r == FeedRefused(CandidateConflict(refusal, p.items[i].identity)))
  {
    hide Agrees, Tiles, Decide, Apply, ApplyItems, AcceptedUpTo;
    if p.from == Cursor(t.feed.cursors, p.stream) && p.from < p.to {
      ReceiptIsNew(t.feed, t.book.history, p);
      NothingTaken(up, t.book, p);
      LoopFrom(up, t.book, t.feed.items, p, 0, ZERO);
      ItemLoop(up, t.book, t.feed.items, p, 0, ZERO);
    }
  }

  lemma NothingTaken(up: Upgrading, b: Book, p: Page)
    ensures BookAt(up, b, p, 0) == b && AcceptedUpTo(up, b, p, 0)
  {
  }

  /** What the item loop counts: inserted is the rows that the inbox gains, inserted
      and updated the revisions that the history gains. */
  lemma {:induction false} TallyCountsRows(up: Upgrading, b: Book, items: map<ItemKey, HistoryKey>, p: Page, k: nat, counts: Tally)
    requires Agrees(b) && k <= |p.items|
    ensures var r := ApplyItems(up, b, items, p, k, counts);
      r.ItemsApplied? ==>
        && r.counts.inserted - counts.inserted == |r.book.inbox| - |b.inbox|
        && r.counts.inserted + r.counts.updated - counts.inserted - counts.updated == |r.book.history| - |b.history|
        && r.counts.Total() - counts.Total() == |p.items| - k
    decreases |p.items| - k
  {
    hide Agrees, Decide, Apply;
    if k < |p.items| {
      var c := p.items[k];
      var result := Decide(up, b, c);
      if result.Accepted() && At(p, k) !in items {
        ApplyKeepsAgreement(up, b, c);
        RowsGained(up, b, c);
        TallyCountsRows(up, Apply(up, b, c), items[At(p, k) := Key(c)], p, k + 1, counts.Counting(result));
      }
    }
  }

  lemma RowsGained(up: Upgrading, b: Book, c: TaskCandidate)
    requires Agrees(b)
    ensures var r, later := Decide(up, b, c), Apply(up, b, c);
      && |later.inbox| == |b.inbox| + (if r.Inserted? then 1 else 0)
      && |later.history| == |b.history| + (if r.Inserted? || r.Updated? then 1 else 0)
  {
    hide Decide, Agrees;
    NewCandidatesAreInserted(up, b, c);
    if c.identity in b.inbox {
      AnswersIff(up, b, c);
    } else {
      NewRevision(up, b, c);
    }
  }

  lemma NewRevision(up: Upgrading, b: Book, c: TaskCandidate)
    requires Agrees(b) && c.identity !in b.inbox
    ensures Key(c) !in b.history
  {
    assert Key(c) in b.history ==> HistoryAgrees(b, Key(c));
  }
}

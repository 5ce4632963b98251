/** What an inbox remembers of its run: the pages it applied, the generations
    it went through, and the observations it counted. */
module InboxHistory {
  import opened Candidate
  import opened InboxTables
  import opened InboxAgreement
  import opened InboxRuns

  // ----- replays -----

  /** `p` was applied by some call of the run. */
  ghost predicate AppliedIn(up: Upgrading, calls: seq<Call>, p: Page) {
    calls != [] &&
    var earlier, last := calls[..|calls| - 1], calls[|calls| - 1];
    || AppliedIn(up, earlier, p)
    || (last == Feeding(p) && ImportFeed(up, Run(up, NO_TABLES, earlier), p).1.Applied?)
  }

  /** The receipts of a run are the pages it applied, under their own ranges. */
  lemma {:induction false} ReceiptsAreAppliedPages(up: Upgrading, calls: seq<Call>, p: Page)
    ensures var receipts := Run(up, NO_TABLES, calls).feed.receipts;
      AppliedIn(up, calls, p) <==> p.Receipt() in receipts && receipts[p.Receipt()] == p
  {
    hide ApplyItems, Agrees, Tiles, ObservationsAgree, Apply, ApplyObservations, CallRaises;
    if calls != [] {
      var earlier, last := calls[..|calls| - 1], calls[|calls| - 1];
      var t := Run(up, NO_TABLES, earlier);
      ReceiptsAreAppliedPages(up, earlier, p);
      ReachableTablesAgree(up, earlier);
      if last.Feeding? {
        var q := last.page;
        if ImportFeed(up, t, q).1.Applied? {
          ReceiptIsNew(t.feed, t.book.history, q);
        }
      }
    }
  }

  /** A page behind the cursor is REPLAYED exactly when that page was applied,
      CURSOR_REUSE exactly when its range was applied with other content, and
      CURSOR_OVERLAP otherwise; none of them changes anything. */
  lemma PagesBehindTheCursor(up: Upgrading, calls: seq<Call>, p: Page)
    requires p.from < Cursor(Run(up, NO_TABLES, calls).feed.cursors, p.stream)
    ensures var t := Run(up, NO_TABLES, calls);
      var r := ImportFeed(up, t, p);
      && r.0 == t
      && (r.1 == Replayed <==> AppliedIn(up, calls, p))
      && (r.1 == FeedRefused(CursorReuse) <==>
            exists q: Page :: q != p && q.Receipt() == p.Receipt() && AppliedIn(up, calls, q))
      && (r.1 == FeedRefused(CursorOverlap) <==>
            forall q: Page :: q.Receipt() == p.Receipt() ==> !AppliedIn(up, calls, q))
  {
    hide ApplyItems;
    var receipts := Run(up, NO_TABLES, calls).feed.receipts;
    forall q: Page ensures AppliedIn(up, calls, q) <==> q.Receipt() in receipts && receipts[q.Receipt()] == q {
      ReceiptsAreAppliedPages(up, calls, q);
    }
    ReachableTablesAgree(up, calls);
    if p.Receipt() in receipts {
      var q := receipts[p.Receipt()];
      assert ReceiptFits(Run(up, NO_TABLES, calls).feed, p.Receipt());
      assert q.Receipt() == p.Receipt() && AppliedIn(up, calls, q);
    }
  }

  // ----- generations -----

  function Generation(b: Book, key: HistoryKey): nat
    requires key in b.history
  {
    b.history[key].payload.lifecycle.generation
  }

  /** The stored positive generations of `id` are consecutive integers up to
      its current one, with one revision each. */
  ghost predicate ConsecutiveFor(b: Book, id: Identity)
    requires id in b.lifecycle
  {
    var current := b.lifecycle[id].generation;
    && (forall k | k in b.history && k.id == id :: Generation(b, k) <= current)
    && (forall k, l | k in b.history && l in b.history && k.id == l.id == id ::
          Generation(b, k) == Generation(b, l) > 0 ==> k == l)
    && (forall k, g: nat | k in b.history && k.id == id && 0 < Generation(b, k) <= g <= current ::
          HasGeneration(b, id, g))
  }

  ghost predicate HasGeneration(b: Book, id: Identity, g: nat) {
    exists k | k in b.history :: k.id == id && Generation(b, k) == g
  }

  ghost predicate Consecutive(b: Book) {
    forall id | id in b.lifecycle :: ConsecutiveFor(b, id)
  }

  /** `c` is not accepted as a contract upgrade of what is stored. */
  predicate NoUpgrade(up: Upgrading, b: Book, c: TaskCandidate) {
    c.identity in b.inbox ==> !up(b.inbox[c.identity].payload, c)
  }

  /** Outside contract upgrades a stored generation never falls, and once
      positive every UPDATED raises it by exactly one. */
  lemma GenerationsStepByOne(up: Upgrading, b: Book, c: TaskCandidate)
    requires Agrees(b) && NoUpgrade(up, b, c) && c.identity in b.lifecycle
    ensures var before, later := b.lifecycle[c.identity].generation, Apply(up, b, c).lifecycle[c.identity].generation;
      && before <= later
      && (Decide(up, b, c).Updated? && before > 0 ==> later == before + 1)
      && (!Decide(up, b, c).Updated? ==> later == before)
  {
    assert RowAgrees(b, c.identity);
  }

  /** `c` may become current without a contract upgrade. */
  ghost predicate NextGeneration(b: Book, c: TaskCandidate) {
    && MayWrite(b, c)
    && (c.identity in b.lifecycle ==>
          var g := b.lifecycle[c.identity].generation;
          if g > 0 then c.lifecycle.generation == g + 1 else c.lifecycle.generation >= g)
  }

  /** The revisions of `id` after a write are the new one and the old ones. */
  lemma WrittenRevision(b: Book, c: TaskCandidate, k: HistoryKey)
    requires Agrees(b) && k in Written(b, c).history
    ensures k != Key(c) ==> k in b.history && k.id in b.lifecycle && Generation(Written(b, c), k) == Generation(b, k)
    ensures k == Key(c) ==> Generation(Written(b, c), k) == c.lifecycle.generation
  {
    assert k in b.history ==> HistoryAgrees(b, k);
  }

  lemma OldGenerationStays(b: Book, c: TaskCandidate, id: Identity, g: nat)
    requires Key(c) !in b.history && HasGeneration(b, id, g)
    ensures HasGeneration(Written(b, c), id, g)
  {
    var l :| l in b.history && l.id == id && Generation(b, l) == g;
    var w := Written(b, c);
    assert l in w.history && w.history[l] == b.history[l];
  }

  lemma WriteFillsGenerations(b: Book, c: TaskCandidate, k: HistoryKey, g: nat)
    requires Agrees(b) && Consecutive(b) && NextGeneration(b, c) && k in Written(b, c).history
    requires 0 < Generation(Written(b, c), k) <= g <= Written(b, c).lifecycle[k.id].generation
    ensures HasGeneration(Written(b, c), k.id, g)
  {
    var w := Written(b, c);
    WrittenRevision(b, c, k);
    if k.id == c.identity && g == c.lifecycle.generation {
      assert Key(c) in w.history && Generation(w, Key(c)) == g;
    } else {
      hide HasGeneration;
      assert ConsecutiveFor(b, k.id);
      OldGenerationStays(b, c, k.id, g);
    }
  }

  lemma WriteKeepsGenerations(b: Book, c: TaskCandidate, id: Identity)
    requires Agrees(b) && Consecutive(b) && NextGeneration(b, c) && id in Written(b, c).lifecycle
    ensures ConsecutiveFor(Written(b, c), id)
  {
    hide HasGeneration, Agrees;
    var w := Written(b, c);
    forall k | k in w.history && k.id == id ensures Generation(w, k) <= w.lifecycle[id].generation {
      WrittenRevision(b, c, k);
      assert id in b.lifecycle ==> ConsecutiveFor(b, id);
    }
    forall k, l | k in w.history && l in w.history && k.id == l.id == id && Generation(w, k) == Generation(w, l) > 0
      ensures k == l
    {
      WrittenRevision(b, c, k);
      WrittenRevision(b, c, l);
      assert id in b.lifecycle ==> ConsecutiveFor(b, id);
    }
    forall k, g: nat | k in w.history && k.id == id && 0 < Generation(w, k) <= g <= w.lifecycle[id].generation
      ensures HasGeneration(w, id, g)
    {
      WriteFillsGenerations(b, c, k, g);
    }
  }

  lemma AcceptedIsNextGeneration(up: Upgrading, b: Book, c: TaskCandidate)
    requires Agrees(b) && NoUpgrade(up, b, c)
    requires Decide(up, b, c).Inserted? || Decide(up, b, c).Updated?
    ensures NextGeneration(b, c)
  {
    assert c.identity in b.inbox ==> RowAgrees(b, c.identity);
  }

  lemma ApplyKeepsGenerations(up: Upgrading, b: Book, c: TaskCandidate)
    requires Agrees(b) && Consecutive(b) && NoUpgrade(up, b, c)
    ensures Consecutive(Apply(up, b, c))
  {
    hide Agrees, Decide, NextGeneration, ConsecutiveFor, NoUpgrade;
    var result := Decide(up, b, c);
    if result.Inserted? || result.Updated? {
      AcceptedIsNextGeneration(up, b, c);
      forall id | id in Written(b, c).lifecycle ensures ConsecutiveFor(Written(b, c), id) {
        WriteKeepsGenerations(b, c, id);
      }
    }
  }

  ghost predicate NoUpgradeOnPage(up: Upgrading, b: Book, p: Page, k: nat)
    decreases |p.items| - k
  {
    k < |p.items| ==> NoUpgrade(up, b, p.items[k]) && NoUpgradeOnPage(up, Apply(up, b, p.items[k]), p, k + 1)
  }

  ghost predicate UpgradeFree(up: Upgrading, calls: seq<Call>) {
    calls != [] ==>
      var earlier, t := calls[..|calls| - 1], Run(up, NO_TABLES, calls[..|calls| - 1]);
      UpgradeFree(up, earlier) &&
      match calls[|calls| - 1]
      case Document(c) => NoUpgrade(up, t.book, c)
      case Feeding(p) => ImportFeed(up, t, p).1.Applied? ==> NoUpgradeOnPage(up, t.book, p, 0)
      case Shadowing(_) => true
  }

  lemma {:induction false} PageKeepsGenerations(
      up: Upgrading, b: Book, items: map<ItemKey, HistoryKey>, p: Page, k: nat, counts: Tally)
    requires Agrees(b) && Consecutive(b) && k <= |p.items| && NoUpgradeOnPage(up, b, p, k)
    ensures var r := ApplyItems(up, b, items, p, k, counts); r.ItemsApplied? ==> Consecutive(r.book)
    decreases |p.items| - k
  {
    hide Agrees, Consecutive, Decide, Apply, NoUpgrade, Extends;
    if k < |p.items| {
      var c := p.items[k];
      ApplyKeepsAgreement(up, b, c);
      ApplyKeepsGenerations(up, b, c);
      if Decide(up, b, c).Accepted() && At(p, k) !in items {
        PageKeepsGenerations(up, Apply(up, b, c), items[At(p, k) := Key(c)], p, k + 1,
                             counts.Counting(Decide(up, b, c)));
      }
    }
  }

  lemma NothingIsConsecutive()
    ensures Consecutive(NO_TABLES.book)
  {
  }

  /** In a run without contract upgrades, each candidate's positive generations
      are consecutive, with one revision each. */
  lemma {:induction false} GenerationsAreConsecutive(up: Upgrading, calls: seq<Call>)
    requires UpgradeFree(up, calls)
    ensures Consecutive(Run(up, NO_TABLES, calls).book)
  {
    hide Consecutive, Decide, Apply, NoUpgrade, ApplyItems, NoUpgradeOnPage, Agrees, Tiles, ObservationsAgree;
    if calls == [] {
      NothingIsConsecutive();
    } else {
      var earlier, last := calls[..|calls| - 1], calls[|calls| - 1];
      var t := Run(up, NO_TABLES, earlier);
      GenerationsAreConsecutive(up, earlier);
      ReachableTablesAgree(up, earlier);
      match last
      case Document(c) => ApplyKeepsGenerations(up, t.book, c);
      case Feeding(p) =>
        if ImportFeed(up, t, p).1.Applied? {
          PageKeepsGenerations(up, t.book, t.feed.items, p, 0, ZERO);
        }
      case Shadowing(_) =>
    }
  }

  // ----- observations -----

  /** All observations the run's shadow pages reported as inserted. */
  function ObservedIn(up: Upgrading, calls: seq<Call>): nat {
    if calls == [] then 0
    else
      var earlier, last := calls[..|calls| - 1], calls[|calls| - 1];
      ObservedIn(up, earlier) +
        if last.Shadowing? then Observed(ImportShadowFeed(Run(up, NO_TABLES, earlier), last.shadow).1) else 0
  }

  datatype Report = Report(total: nat, agreed: nat, divergent: nat, declined: nat, unmapped: nat)

  function WithComparison(sh: Shadow, comparison: Comparison): set<HistoryKey> {
    set key | key in sh.observations && sh.observations[key].comparison == comparison
  }

  /** The counts of `shadow_report`. */
  function ReportOf(sh: Shadow): Report {
    Report(|sh.observations|, |WithComparison(sh, Agreed)|, |WithComparison(sh, Divergent)|,
           |WithComparison(sh, NotComparable(Declined))|, |WithComparison(sh, NotComparable(Unmapped))|)
  }

  lemma ComparisonsCover(sh: Shadow, h: map<HistoryKey, HistoryRow>)
    requires ObservationsAgree(sh, h)
    ensures sh.observations.Keys
         == (WithComparison(sh, Agreed) + WithComparison(sh, Divergent))
          + (WithComparison(sh, NotComparable(Declined)) + WithComparison(sh, NotComparable(Unmapped)))
  {
    forall key | key in sh.observations
      ensures sh.observations[key].comparison in
        {Agreed, Divergent, NotComparable(Declined), NotComparable(Unmapped)}
    {
      assert ObservationAgrees(sh, h, key);
    }
  }

  lemma ComparisonsPartition(sh: Shadow, h: map<HistoryKey, HistoryRow>)
    requires ObservationsAgree(sh, h)
    ensures var r := ReportOf(sh); r.total == r.agreed + r.divergent + r.declined + r.unmapped
  {
    hide WithComparison, ObservationsAgree;
    ComparisonsCover(sh, h);
    ComparisonsAreDisjoint(sh);
    assert |sh.observations| == |sh.observations.Keys|;
  }

  lemma ComparisonsAreDisjoint(sh: Shadow)
    ensures WithComparison(sh, Agreed) !! WithComparison(sh, Divergent)
    ensures WithComparison(sh, NotComparable(Declined)) !! WithComparison(sh, NotComparable(Unmapped))
    ensures WithComparison(sh, Agreed) + WithComparison(sh, Divergent)
         !! WithComparison(sh, NotComparable(Declined)) + WithComparison(sh, NotComparable(Unmapped))
  {
  }

  /** The report's four counts add up to everything the shadow pages inserted. */
  lemma {:induction false} ReportCountsEveryObservation(up: Upgrading, calls: seq<Call>)
    ensures var r := ReportOf(Run(up, NO_TABLES, calls).shadow);
      r.total == ObservedIn(up, calls) == r.agreed + r.divergent + r.declined + r.unmapped
  {
    hide ImportFeed, ImportDocument, ImportShadowFeed, Inv;
    ReachableTablesAgree(up, calls);
    var t := Run(up, NO_TABLES, calls);
    assert ObservationsAgree(t.shadow, t.book.history) by {
      InvMeansObservationsAgree(t);
    }
    ComparisonsPartition(t.shadow, t.book.history);
    if calls != [] {
      var earlier, last := calls[..|calls| - 1], calls[|calls| - 1];
      ReportCountsEveryObservation(up, earlier);
      ReachableTablesAgree(up, earlier);
      StepCountsObservations(up, Run(up, NO_TABLES, earlier), last);
    }
  }

  lemma InvMeansObservationsAgree(t: Tables)
    requires Inv(t)
    ensures ObservationsAgree(t.shadow, t.book.history)
  {
  }

  lemma StepCountsObservations(up: Upgrading, t: Tables, call: Call)
    requires Inv(t)
    ensures |Step(up, t, call).shadow.observations| == |t.shadow.observations| +
      if call.Shadowing? then Observed(ImportShadowFeed(t, call.shadow).1) else 0
  {
    hide Inv, ApplyItems;
    if call.Shadowing? {
      ShadowKeepsInv(t, call.shadow);
    }
  }

  /** Every stored observation names a history revision holding exactly the
      observed candidate, and is agreed or divergent as comparing the legacy
      digest with that stored candidate says. */
  lemma ObservationsNameTheirRevision(up: Upgrading, calls: seq<Call>, key: HistoryKey)
    requires key in Run(up, NO_TABLES, calls).shadow.observations
    ensures var t := Run(up, NO_TABLES, calls);
      var row := t.shadow.observations[key];
      && key in t.book.history && t.book.history[key].payload == row.payload.candidate
      && (row.comparison == Agreed <==>
            row.legacy.Some? && row.legacy.value.comparableDigest == ComparableOf(t.book.history[key].payload))
      && (row.comparison == Divergent <==>
            row.legacy.Some? && row.legacy.value.comparableDigest != ComparableOf(t.book.history[key].payload))
  {
    ReachableTablesAgree(up, calls);
    var t := Run(up, NO_TABLES, calls);
    assert ObservationAgrees(t.shadow, t.book.history, key);
  }

  /** The legacy task of an observation has the text, project and owner of the
      candidate stored at the revision it names. */
  predicate LegacyMatches(t: Tables, key: HistoryKey)
    requires key in t.shadow.observations && key in t.book.history
  {
    var legacy, task := t.shadow.observations[key].legacy, t.book.history[key].payload.task;
    && legacy.Some?
    && legacy.value.comparableDigest.text == task.text
    && legacy.value.comparableDigest.project == task.project
    && legacy.value.comparableDigest.owner == task.owner
  }

  /** The report of any run counts, in this order, the observations whose
      legacy task is the stored candidate's, those whose legacy task differs
      from it, and those without one that were declined and unmapped. */
  lemma ReportMeans(up: Upgrading, calls: seq<Call>)
    ensures var t := Run(up, NO_TABLES, calls);
      var r, rows := ReportOf(t.shadow), t.shadow.observations;
      && rows.Keys <= t.book.history.Keys
      && r.total == |rows|
      && r.agreed == |set key | key in rows && LegacyMatches(t, key)|
      && r.divergent == |set key | key in rows && rows[key].legacy.Some? && !LegacyMatches(t, key)|
      && r.declined == |set key | key in rows && rows[key].legacy.None? && rows[key].disposition.Declined?|
      && r.unmapped == |set key | key in rows && rows[key].legacy.None? && rows[key].disposition.Unmapped?|
  {
    hide Run;
    var t := Run(up, NO_TABLES, calls);
    var sh, rows := t.shadow, t.shadow.observations;
    forall key | key in rows
      ensures key in t.book.history
      ensures rows[key].comparison == Agreed <==> LegacyMatches(t, key)
      ensures rows[key].comparison == Divergent <==> rows[key].legacy.Some? && !LegacyMatches(t, key)
      ensures rows[key].comparison == NotComparable(Declined) <==> rows[key].legacy.None? && rows[key].disposition.Declined?
      ensures rows[key].comparison == NotComparable(Unmapped) <==> rows[key].legacy.None? && rows[key].disposition.Unmapped?
    {
      ComparisonMeans(up, calls, key);
    }
    assert WithComparison(sh, Agreed) == set key | key in rows && LegacyMatches(t, key);
    assert WithComparison(sh, Divergent) == set key | key in rows && rows[key].legacy.Some? && !LegacyMatches(t, key);
    assert WithComparison(sh, NotComparable(Declined))
        == set key | key in rows && rows[key].legacy.None? && rows[key].disposition.Declined?;
    assert WithComparison(sh, NotComparable(Unmapped))
        == set key | key in rows && rows[key].legacy.None? && rows[key].disposition.Unmapped?;
  }

  lemma ComparisonMeans(up: Upgrading, calls: seq<Call>, key: HistoryKey)
    requires key in Run(up, NO_TABLES, calls).shadow.observations
    ensures var t := Run(up, NO_TABLES, calls);
      var row := t.shadow.observations[key];
      && key in t.book.history
      && (row.comparison == Agreed <==> LegacyMatches(t, key))
      && (row.comparison == Divergent <==> row.legacy.Some? && !LegacyMatches(t, key))
      && (row.comparison == NotComparable(Declined) <==> row.legacy.None? && row.disposition.Declined?)
      && (row.comparison == NotComparable(Unmapped) <==> row.legacy.None? && row.disposition.Unmapped?)
  {
    ReachableTablesAgree(up, calls);
    var t := Run(up, NO_TABLES, calls);
    assert ObservationAgrees(t.shadow, t.book.history, key);
  }
}

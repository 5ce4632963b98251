/** Properties of whole runs: any sequence of document, feed and shadow imports
    into an empty inbox. */
module InboxRuns {
  import opened Candidate
  import opened InboxTables
  import opened InboxAgreement

  // ----- observations stay bound to history -----

  predicate ObservationAgrees(sh: Shadow, h: map<HistoryKey, HistoryRow>, key: HistoryKey)
    requires key in sh.observations
  {
    var row := sh.observations[key];
    && key in h && h[key].payload == row.payload.candidate
    && Key(row.payload.candidate) == key && row == ObservationRowOf(row.payload)
  }

  predicate ShadowReceiptFits(sh: Shadow, k: ReceiptKey)
    requires k in sh.receipts
  {
    k == sh.receipts[k].Receipt() && k.from < k.to <= Cursor(sh.cursors, k.stream)
  }

  ghost predicate ObservationsAgree(sh: Shadow, h: map<HistoryKey, HistoryRow>) {
    && (forall key | key in sh.observations :: ObservationAgrees(sh, h, key))
    && (forall k | k in sh.receipts :: ShadowReceiptFits(sh, k))
  }

  ghost predicate Inv(t: Tables) {
    Agrees(t.book) && Tiles(t.feed, t.book.history) && ObservationsAgree(t.shadow, t.book.history)
  }

  /** A new observation of a revision that holds the observed candidate. */
  lemma OneMoreObservation(sh: Shadow, h: map<HistoryKey, HistoryRow>, o: ParsedObservation)
    requires ObservationsAgree(sh, h) && DecideObservation(h, sh.observations, o).ObservationInserted?
    ensures Key(o.candidate) !in sh.observations
    ensures ObservationsAgree(sh.(observations := sh.observations[Key(o.candidate) := ObservationRowOf(o)]), h)
  {
    hide Compare;
    var next := sh.(observations := sh.observations[Key(o.candidate) := ObservationRowOf(o)]);
    forall key | key in next.observations ensures ObservationAgrees(next, h, key) {
      assert key in sh.observations ==> ObservationAgrees(sh, h, key);
    }
    forall r | r in next.receipts ensures ShadowReceiptFits(next, r) {
      assert ShadowReceiptFits(sh, r);
    }
  }

  /** The observation loop keeps every row bound and counts its inserts. */
  lemma ObservationLoop(sh: Shadow, h: map<HistoryKey, HistoryRow>, p: ShadowPage, k: nat, inserted: nat, untouched: nat)
    requires ObservationsAgree(sh, h) && k <= |p.items|
    ensures var r := ApplyObservations(h, sh.observations, p, k, inserted, untouched);
      r.ObservationsApplied? ==>
        && ObservationsAgree(sh.(observations := r.observations), h)
        && r.inserted + r.untouched == inserted + untouched + |p.items| - k
        && |r.observations| == |sh.observations| + r.inserted - inserted
    decreases |p.items| - k
  {
    hide ObservationRowOf, ObservationsAgree;
    if k < |p.items| {
      var o := p.items[k];
      var decision := DecideObservation(h, sh.observations, o);
      if decision.ObservationInserted? {
        OneMoreObservation(sh, h, o);
        var next := sh.(observations := sh.observations[Key(o.candidate) := ObservationRowOf(o)]);
        ObservationLoop(next, h, p, k + 1, inserted + 1, untouched);
      } else if decision.ObservationUnchanged? {
        ObservationLoop(sh, h, p, k + 1, inserted, untouched + 1);
      }
    }
  }

  lemma ObservationsSurvive(sh: Shadow, h: map<HistoryKey, HistoryRow>, later: map<HistoryKey, HistoryRow>)
    requires ObservationsAgree(sh, h) && Extends(h, later)
    ensures ObservationsAgree(sh, later)
  {
    forall key | key in sh.observations ensures ObservationAgrees(sh, later, key) {
      assert ObservationAgrees(sh, h, key);
    }
  }

  lemma TilesSurvive(f: Feed, h: map<HistoryKey, HistoryRow>, later: map<HistoryKey, HistoryRow>)
    requires Tiles(f, h) && Extends(h, later)
    ensures Tiles(f, later)
  {
    forall k | k in f.receipts ensures PageStored(f, later, k) {
      assert PageStored(f, h, k);
    }
  }

  // ----- every transaction keeps the invariant and never raises -----

  lemma DocumentKeepsInv(up: Upgrading, t: Tables, c: TaskCandidate)
    requires Inv(t)
    ensures Inv(ImportDocument(up, t, c).0) && !ImportDocument(up, t, c).1.Failed?
    ensures Extends(t.book.history, ImportDocument(up, t, c).0.book.history)
  {
    hide Decide, Agrees, Tiles, ObservationsAgree, Apply, Extends;
    AgreementRulesOutErrors(up, t.book, c);
    ApplyKeepsAgreement(up, t.book, c);
    TilesSurvive(t.feed, t.book.history, Apply(up, t.book, c).history);
    ObservationsSurvive(t.shadow, t.book.history, Apply(up, t.book, c).history);
  }

  lemma FeedKeepsInv(up: Upgrading, t: Tables, p: Page)
    requires Inv(t)
    ensures Inv(ImportFeed(up, t, p).0) && !ImportFeed(up, t, p).1.FeedFailed?
    ensures Extends(t.book.history, ImportFeed(up, t, p).0.book.history)
    ensures var r := ImportFeed(up, t, p).1; r.Applied? ==> r.counts.Total() == |p.items|
  {
    hide Agrees, Tiles, ObservationsAgree, Grows, Stored, ApplyItems;
    if p.from == Cursor(t.feed.cursors, p.stream) && p.from < p.to {
      ReceiptIsNew(t.feed, t.book.history, p);
      ItemLoop(up, t.book, t.feed.items, p, 0, ZERO);
      var r := ApplyItems(up, t.book, t.feed.items, p, 0, ZERO);
      if r.ItemsApplied? {
        AppendKeepsTiles(t.feed, t.book.history, p, ImportFeed(up, t, p).0.feed, r.book.history);
        ObservationsSurvive(t.shadow, t.book.history, r.book.history);
      }
    }
  }

  /** The receipt and the cursor of an applied page are added. */
  lemma ObservationsCommit(sh: Shadow, h: map<HistoryKey, HistoryRow>, p: ShadowPage)
    requires ObservationsAgree(sh, h) && p.from == Cursor(sh.cursors, p.stream) && p.from < p.to
    ensures ObservationsAgree(
      Shadow(sh.observations, sh.cursors[p.stream := p.to], sh.receipts[p.Receipt() := p]), h)
  {
    hide ObservationRowOf;
    var later := Shadow(sh.observations, sh.cursors[p.stream := p.to], sh.receipts[p.Receipt() := p]);
    forall key | key in later.observations ensures ObservationAgrees(later, h, key) {
      assert ObservationAgrees(sh, h, key);
    }
    forall k | k in later.receipts ensures ShadowReceiptFits(later, k) {
      assert k in sh.receipts ==> ShadowReceiptFits(sh, k);
    }
  }

  lemma ShadowKeepsInv(t: Tables, p: ShadowPage)
    requires Inv(t)
    ensures Inv(ImportShadowFeed(t, p).0) && !ImportShadowFeed(t, p).1.ShadowFailed?
    ensures ImportShadowFeed(t, p).0.book == t.book
    ensures |ImportShadowFeed(t, p).0.shadow.observations|
         == |t.shadow.observations| + Observed(ImportShadowFeed(t, p).1)
  {
    hide Agrees, Tiles, ApplyObservations, ObservationRowOf;
    if p.from == Cursor(t.shadow.cursors, p.stream) && p.from < p.to {
      assert p.Receipt() in t.shadow.receipts ==> ShadowReceiptFits(t.shadow, p.Receipt());
      ObservationLoop(t.shadow, t.book.history, p, 0, 0, 0);
      var r := ApplyObservations(t.book.history, t.shadow.observations, p, 0, 0, 0);
      if r.ObservationsApplied? {
        ObservationsCommit(t.shadow.(observations := r.observations), t.book.history, p);
      }
    }
  }

  /** What one shadow page reports as inserted. */
  function Observed(r: ShadowResult): nat {
    if r.ShadowApplied? then r.inserted else 0
  }

  lemma StepKeepsInv(up: Upgrading, t: Tables, call: Call)
    requires Inv(t)
    ensures Inv(Step(up, t, call)) && !CallRaises(up, t, call)
    ensures Extends(t.book.history, Step(up, t, call).book.history)
  {
    hide Inv, ImportDocument, ImportFeed, ImportShadowFeed;
    match call
    case Document(c) => DocumentKeepsInv(up, t, c);
    case Feeding(p) => FeedKeepsInv(up, t, p);
    case Shadowing(p) => ShadowKeepsInv(t, p);
  }

  /** From an empty inbox, every run keeps the tables in agreement, and no call
      after it raises. */
  lemma {:induction false} ReachableTablesAgree(up: Upgrading, calls: seq<Call>)
    ensures Inv(Run(up, NO_TABLES, calls))
    ensures forall next :: !CallRaises(up, Run(up, NO_TABLES, calls), next)
  {
    hide Inv, CallRaises, Step;
    if calls == [] {
      assert Inv(NO_TABLES) by {
        EmptyInboxAgrees();
      }
    } else {
      ReachableTablesAgree(up, calls[..|calls| - 1]);
      StepKeepsInv(up, Run(up, NO_TABLES, calls[..|calls| - 1]), calls[|calls| - 1]);
    }
    forall next ensures !CallRaises(up, Run(up, NO_TABLES, calls), next) {
      StepKeepsInv(up, Run(up, NO_TABLES, calls), next);
    }
  }

  lemma EmptyInboxAgrees()
    ensures Inv(NO_TABLES)
  {
  }

  /** The stored sequences of a stream are exactly 1..cursor. */
  lemma ItemsAreExactlyTheRange(up: Upgrading, calls: seq<Call>, s: Stream, n: nat)
    ensures var f := Run(up, NO_TABLES, calls).feed;
      ItemKey(s, n) in f.items <==> 1 <= n <= Cursor(f.cursors, s)
  {
    var t := Run(up, NO_TABLES, calls);
    var f, at := t.feed, ItemKey(s, n);
    ReachableTablesAgree(up, calls);
    if InRange(f, at) {
      var k :| k in f.receipts.Keys && Covers(k, at);
      assert PageStored(f, t.book.history, k) && ReceiptFits(f, k);
      assert at == At(f.receipts[k], n - k.from - 1);
    }
    assert at in f.items ==> InRange(f, at);
  }
}

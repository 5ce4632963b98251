/** Importing a producer's page ledger into the inbox (`import_outbox`): runs of
    the importer that die after any page, and what they leave behind. */
module Outbox {
  import opened Candidate
  import opened InboxTables
  import opened InboxAgreement
  import opened InboxRuns
  import opened Options

  // ----- the page loop -----

  /** Where the page loop stands; `refused` names the page it stopped at. */
  datatype Progress = Progress(tables: Tables, refused: Option<nat>, applied: nat, replayed: nat, counts: Tally)

  function Sum(a: Tally, b: Tally): Tally {
    Tally(a.inserted + b.inserted, a.updated + b.updated, a.untouched + b.untouched)
  }

  /** One page through a loop that has not stopped. */
  function Advance(up: Upgrading, at: Progress, p: Page, index: nat): Progress {
    var (tables, result) := ImportFeed(up, at.tables, p);
    match result
    case Applied(counts) => Progress(tables, None, at.applied + 1, at.replayed, Sum(at.counts, counts))
    case Replayed => Progress(tables, None, at.applied, at.replayed + 1, at.counts)
    case Empty => at.(tables := tables)
    case _ => at.(tables := tables, refused := Some(index))
  }

  /** The page loop over all of `pages`: it stops at the first page that is
      refused. Dying after `k` pages leaves `Import(up, t, pages[..k]).tables`. */
  function Import(up: Upgrading, t: Tables, pages: seq<Page>): Progress {
    if pages == [] then Progress(t, None, 0, 0, ZERO)
    else
      var n := |pages| - 1;
      var at := Import(up, t, pages[..n]);
      if at.refused.Some? then at else Advance(up, at, pages[n], n)
  }

  // ----- ledgers -----

  function End(pages: seq<Page>): nat {
    if pages == [] then 0 else pages[|pages| - 1].to
  }

  /** Pages of one stream, each starting where the one before it ended. */
  predicate Chain(pages: seq<Page>, s: Stream) {
    pages == [] ||
    var earlier, last := pages[..|pages| - 1], pages[|pages| - 1];
    Chain(earlier, s) && last.stream == s && last.from == End(earlier)
  }

  predicate IsEmpty(p: Page) {
    p.from == p.to
  }

  /** No empty page is followed by one that is not. */
  ghost predicate EmptyPagesTrail(pages: seq<Page>) {
    forall i, j | 0 <= i < j < |pages| && IsEmpty(pages[i]) :: IsEmpty(pages[j])
  }

  lemma {:induction false} EndsGrow(pages: seq<Page>, s: Stream, k: nat)
    requires Chain(pages, s) && k <= |pages|
    ensures End(pages[..k]) <= End(pages)
    decreases |pages|
  {
    if k < |pages| {
      var n := |pages| - 1;
      ChainPrefix(pages, s, n);
      EndsGrow(pages[..n], s, k);
      assert pages[..n][..k] == pages[..k];
      assert pages[n].from == End(pages[..n]);
    } else {
      assert pages[..k] == pages;
    }
  }

  lemma {:induction false} ChainPrefix(pages: seq<Page>, s: Stream, k: nat)
    requires Chain(pages, s) && k <= |pages|
    ensures Chain(pages[..k], s)
    decreases |pages|
  {
    if k < |pages| {
      ChainPrefix(pages[..|pages| - 1], s, k);
      assert pages[..|pages| - 1][..k] == pages[..k];
    } else {
      assert pages[..k] == pages;
    }
  }

  lemma ChainAt(pages: seq<Page>, s: Stream, k: nat)
    requires Chain(pages, s) && k < |pages|
    ensures pages[k].stream == s && pages[k].from == End(pages[..k]) && pages[k].to == End(pages[..k + 1])
  {
    ChainPrefix(pages, s, k + 1);
    assert pages[..k + 1][k] == pages[k] && pages[..k + 1][..k] == pages[..k];
  }

  lemma TrailAt(pages: seq<Page>, i: nat, j: nat)
    requires EmptyPagesTrail(pages) && i <= j < |pages| && IsEmpty(pages[i])
    ensures IsEmpty(pages[j])
  {
  }

  lemma ImportOfLonger(up: Upgrading, t: Tables, pages: seq<Page>, k: nat)
    requires k < |pages|
    ensures var at := Import(up, t, pages[..k]);
      Import(up, t, pages[..k + 1]) == if at.refused.Some? then at else Advance(up, at, pages[k], k)
  {
    assert pages[..k + 1][..k] == pages[..k];
  }

  // ----- the cursor -----

  /** A loop that has not stopped leaves the cursor at the end of what it saw,
      or further if it started further. */
  lemma {:induction false} ImportMovesCursor(up: Upgrading, t: Tables, pages: seq<Page>, s: Stream)
    requires Inv(t) && Chain(pages, s)
    ensures var r := Import(up, t, pages);
      var cursor, start := Cursor(r.tables.feed.cursors, s), Cursor(t.feed.cursors, s);
      && Inv(r.tables)
      && start <= cursor <= (if End(pages) <= start then start else End(pages))
      && (r.refused.None? ==> cursor == if End(pages) <= start then start else End(pages))
    decreases |pages|
  {
    hide Inv, ApplyItems;
    if pages != [] {
      var n := |pages| - 1;
      var at, p := Import(up, t, pages[..n]), pages[n];
      ChainPrefix(pages, s, n);
      ImportMovesCursor(up, t, pages[..n], s);
      EndsGrow(pages, s, n);
      if at.refused.None? {
        FeedKeepsInv(up, at.tables, p);
        if ImportFeed(up, at.tables, p).1.Replayed? {
          ReceiptEndsBehindCursor(at.tables, p);
        }
      }
    }
  }

  lemma ReceiptEndsBehindCursor(t: Tables, p: Page)
    requires Inv(t) && p.Receipt() in t.feed.receipts
    ensures p.to <= Cursor(t.feed.cursors, p.stream) && p.from < p.to
  {
    assert ReceiptFits(t.feed, p.Receipt());
  }

  // ----- pages already imported -----

  lemma FeedKeepsReceipts(up: Upgrading, t: Tables, p: Page, k: ReceiptKey)
    requires k in t.feed.receipts
    ensures var later := ImportFeed(up, t, p).0.feed.receipts; k in later && later[k] == t.feed.receipts[k]
  {
    hide ApplyItems;
  }

  lemma {:induction false} ReceiptsStay(up: Upgrading, t: Tables, pages: seq<Page>, i: nat, m: nat, k: ReceiptKey)
    requires i <= m <= |pages| && k in Import(up, t, pages[..i]).tables.feed.receipts
    ensures var early, later := Import(up, t, pages[..i]).tables.feed.receipts, Import(up, t, pages[..m]).tables.feed.receipts;
      k in later && later[k] == early[k]
    decreases m
  {
    hide ImportFeed;
    if i < m {
      ReceiptsStay(up, t, pages, i, m - 1, k);
      ImportOfLonger(up, t, pages, m - 1);
      FeedKeepsReceipts(up, Import(up, t, pages[..m - 1]).tables, pages[m - 1], k);
    }
  }

  /** A loop that stopped stays where it is. */
  lemma {:induction false} StoppedStays(up: Upgrading, t: Tables, pages: seq<Page>, i: nat, m: nat)
    requires i <= m <= |pages| && Import(up, t, pages[..i]).refused.Some?
    ensures Import(up, t, pages[..m]) == Import(up, t, pages[..i])
    decreases m
  {
    hide Import, Advance;
    if i < m {
      StoppedStays(up, t, pages, i, m - 1);
      ImportOfLonger(up, t, pages, m - 1);
    }
  }

  /** Behind an accepted empty page there are only empty pages, and none of
      them changes anything. */
  lemma {:induction false} TrailChangesNothing(up: Upgrading, t: Tables, pages: seq<Page>, s: Stream, i: nat, m: nat)
    requires Inv(t) && Chain(pages, s) && EmptyPagesTrail(pages)
    requires i < m <= |pages| && IsEmpty(pages[i])
    requires Import(up, t, pages[..i + 1]).refused.None?
    ensures Import(up, t, pages[..m]).refused.None?
    ensures Import(up, t, pages[..m]).tables == Import(up, t, pages[..i]).tables
    ensures Cursor(Import(up, t, pages[..i]).tables.feed.cursors, s) == pages[i].from == End(pages[..m])
    decreases m
  {
    hide Inv, Import, ImportFeed, Chain, EmptyPagesTrail, End;
    var at, p := Import(up, t, pages[..m - 1]), pages[m - 1];
    TrailAt(pages, i, m - 1);
    ChainAt(pages, s, m - 1);
    ChainPrefix(pages, s, m - 1);
    ImportOfLonger(up, t, pages, m - 1);
    ImportMovesCursor(up, t, pages[..m - 1], s);
    EmptyPageAtMost(up, at.tables, p);
    if m > i + 1 {
      TrailChangesNothing(up, t, pages, s, i, m - 1);
    }
  }

  /** An empty page is accepted at the cursor only, and changes nothing. */
  lemma EmptyPageAtMost(up: Upgrading, t: Tables, p: Page)
    requires Inv(t) && IsEmpty(p)
    ensures ImportFeed(up, t, p).0 == t
    ensures ImportFeed(up, t, p).1.Accepted() <==> p.from == Cursor(t.feed.cursors, p.stream)
    ensures ImportFeed(up, t, p).1.Accepted() ==> ImportFeed(up, t, p).1.Empty?
  {
    if p.Receipt() in t.feed.receipts {
      ReceiptEndsBehindCursor(t, p);
    }
  }

  lemma AcceptedLeavesReceipt(up: Upgrading, t: Tables, p: Page)
    requires ImportFeed(up, t, p).1.Accepted() && !IsEmpty(p)
    ensures var receipts := ImportFeed(up, t, p).0.feed.receipts;
      p.Receipt() in receipts && receipts[p.Receipt()] == p
  {
    hide ApplyItems;
  }

  lemma ReceiptReplays(up: Upgrading, t: Tables, p: Page)
    requires Inv(t) && p.Receipt() in t.feed.receipts && t.feed.receipts[p.Receipt()] == p
    ensures ImportFeed(up, t, p) == (t, Replayed)
  {
    ReceiptEndsBehindCursor(t, p);
  }

  /** A page accepted on the way to `pages[..m]` is accepted there again, and
      changes nothing. */
  lemma AcceptedPageRepeats(up: Upgrading, t: Tables, pages: seq<Page>, s: Stream, i: nat, m: nat)
    requires Inv(t) && Chain(pages, s) && EmptyPagesTrail(pages) && i < m <= |pages|
    requires Import(up, t, pages[..i + 1]).refused.None?
    ensures var later := Import(up, t, pages[..m]).tables;
      ImportFeed(up, later, pages[i]).0 == later && ImportFeed(up, later, pages[i]).1.Accepted()
  {
    hide Inv, Import, ImportFeed;
    var p := pages[i];
    ImportOfLonger(up, t, pages, i);
    ChainPrefix(pages, s, m);
    ImportMovesCursor(up, t, pages[..m], s);
    if IsEmpty(p) {
      TrailChangesNothing(up, t, pages, s, i, m);
      EmptyPageAtMost(up, Import(up, t, pages[..m]).tables, p);
    } else {
      AcceptedLeavesReceipt(up, Import(up, t, pages[..i]).tables, p);
      ReceiptsStay(up, t, pages, i + 1, m, p.Receipt());
      ReceiptReplays(up, Import(up, t, pages[..m]).tables, p);
    }
  }

  /** Starting over from where `m` pages led, the first `k <= m` pages change
      nothing and stop, if at all, at the same page. */
  lemma {:induction false} RestartRepeats(up: Upgrading, t: Tables, pages: seq<Page>, s: Stream, k: nat, m: nat)
    requires Inv(t) && Chain(pages, s) && EmptyPagesTrail(pages) && k <= m <= |pages|
    ensures var later := Import(up, t, pages[..m]).tables;
      && Import(up, later, pages[..k]).tables == later
      && Import(up, later, pages[..k]).refused == Import(up, t, pages[..k]).refused
    decreases k
  {
    hide Inv, ImportFeed, Chain, EmptyPagesTrail, Advance;
    if k > 0 {
      RestartRepeats(up, t, pages, s, k - 1, m);
      OneMorePageRepeats(up, t, pages, s, k, m);
    }
  }

  lemma OneMorePageRepeats(up: Upgrading, t: Tables, pages: seq<Page>, s: Stream, k: nat, m: nat)
    requires Inv(t) && Chain(pages, s) && EmptyPagesTrail(pages) && 0 < k <= m <= |pages|
    requires var later := Import(up, t, pages[..m]).tables;
      && Import(up, later, pages[..k - 1]).tables == later
      && Import(up, later, pages[..k - 1]).refused == Import(up, t, pages[..k - 1]).refused
    ensures var later := Import(up, t, pages[..m]).tables;
      && Import(up, later, pages[..k]).tables == later
      && Import(up, later, pages[..k]).refused == Import(up, t, pages[..k]).refused
  {
    hide Inv, ImportFeed, Chain, EmptyPagesTrail, Import;
    var later := Import(up, t, pages[..m]).tables;
    ImportOfLonger(up, t, pages, k - 1);
    ImportOfLonger(up, later, pages, k - 1);
    if Import(up, t, pages[..k]).refused.None? {
      AcceptedPageRepeats(up, t, pages, s, k - 1, m);
    } else {
      StoppedStays(up, t, pages, k, m);
      RefusalKeepsTables(up, t, pages[k - 1]);
      RefusalKeepsTables(up, Import(up, t, pages[..k - 1]).tables, pages[k - 1]);
    }
  }

  lemma RefusalKeepsTables(up: Upgrading, t: Tables, p: Page)
    ensures !ImportFeed(up, t, p).1.Applied? ==> ImportFeed(up, t, p).0 == t
  {
    hide ApplyItems;
  }

  /** Starting over from where `m` pages led and going further is going there
      at once: same tables, same page refused. */
  lemma {:induction false} RestartContinues(up: Upgrading, t: Tables, pages: seq<Page>, s: Stream, k: nat, m: nat)
    requires Inv(t) && Chain(pages, s) && EmptyPagesTrail(pages) && m <= k <= |pages|
    ensures var r, direct := Import(up, Import(up, t, pages[..m]).tables, pages[..k]), Import(up, t, pages[..k]);
      r.tables == direct.tables && r.refused == direct.refused
    decreases k
  {
    hide Inv, ImportFeed, Import, Chain, EmptyPagesTrail;
    if k == m {
      RestartRepeats(up, t, pages, s, k, m);
    } else {
      RestartContinues(up, t, pages, s, k - 1, m);
      ImportOfLonger(up, t, pages, k - 1);
      ImportOfLonger(up, Import(up, t, pages[..m]).tables, pages, k - 1);
    }
  }

  // ----- resumability -----

  /** One run of the importer on `ledger` that dies after `cut` pages. */
  datatype Attempt = Attempt(ledger: seq<Page>, cut: nat)
  {
    function Reached(): seq<Page> {
      if cut < |ledger| then ledger[..cut] else ledger
    }
  }

  /** How a run that is not cut off ends: it refuses a ledger that ends behind
      the inbox, stops at a refused page, or returns. */
  datatype Ending = LedgerBehind | StoppedAt(page: nat) | Returned

  predicate Behind(t: Tables, ledger: seq<Page>, s: Stream) {
    Cursor(t.feed.cursors, s) > End(ledger)
  }

  function ImportOutbox(up: Upgrading, t: Tables, ledger: seq<Page>, s: Stream): (Tables, Ending) {
    if Behind(t, ledger, s) then (t, LedgerBehind)
    else
      var r := Import(up, t, ledger);
      (r.tables, if r.refused.Some? then StoppedAt(r.refused.value) else Returned)
  }

  function AfterAttempt(up: Upgrading, t: Tables, a: Attempt, s: Stream): Tables {
    if Behind(t, a.ledger, s) then t else Import(up, t, a.Reached()).tables
  }

  function AfterAttempts(up: Upgrading, t: Tables, attempts: seq<Attempt>, s: Stream): Tables {
    if attempts == [] then t
    else
      var n := |attempts| - 1;
      AfterAttempt(up, AfterAttempts(up, t, attempts[..n], s), attempts[n], s)
  }

  /** Each attempt saw the ledger as it had grown so far. */
  ghost predicate SawPrefixes(attempts: seq<Attempt>, ledger: seq<Page>) {
    forall a | a in attempts :: a.ledger <= ledger
  }

  /** Attempts only ever move along the ledger. */
  lemma {:induction false} AttemptsFollowLedger(
      up: Upgrading, t: Tables, attempts: seq<Attempt>, ledger: seq<Page>, s: Stream) returns (m: nat)
    requires Inv(t) && Chain(ledger, s) && EmptyPagesTrail(ledger) && SawPrefixes(attempts, ledger)
    ensures m <= |ledger| && AfterAttempts(up, t, attempts, s) == Import(up, t, ledger[..m]).tables
    ensures Behind(t, ledger, s) ==> m == 0
    decreases |attempts|
  {
    hide Inv, EmptyPagesTrail;
    if attempts == [] {
      m := 0;
    } else {
      var n := |attempts| - 1;
      var a := attempts[n];
      m := AttemptsFollowLedger(up, t, attempts[..n], ledger, s);
      var t' := Import(up, t, ledger[..m]).tables;
      assert a in attempts;
      if !Behind(t', a.ledger, s) {
        var k := if a.cut < |a.ledger| then a.cut else |a.ledger|;
        assert a.Reached() == ledger[..k] && a.ledger == ledger[..|a.ledger|];
        EndsGrow(ledger, s, |a.ledger|);
        if k <= m {
          RestartRepeats(up, t, ledger, s, k, m);
        } else {
          RestartContinues(up, t, ledger, s, k, m);
          m := k;
        }
      }
    }
  }

  /** Any runs cut off after any page, with the ledger growing in between, and
      then one run to its end, do what that one run alone would have done: same
      tables, and the same ending down to the page refused. */
  lemma ImportIsResumable(up: Upgrading, t: Tables, attempts: seq<Attempt>, ledger: seq<Page>, s: Stream)
    requires Inv(t) && Chain(ledger, s) && EmptyPagesTrail(ledger) && SawPrefixes(attempts, ledger)
    ensures ImportOutbox(up, AfterAttempts(up, t, attempts, s), ledger, s) == ImportOutbox(up, t, ledger, s)
  {
    hide Inv, EmptyPagesTrail;
    var m := AttemptsFollowLedger(up, t, attempts, ledger, s);
    ChainPrefix(ledger, s, m);
    ImportMovesCursor(up, t, ledger[..m], s);
    EndsGrow(ledger, s, m);
    RestartContinues(up, t, ledger, s, |ledger|, m);
    assert ledger[..|ledger|] == ledger;
  }

  /** A run that returns leaves the cursor at the ledger's end. */
  lemma ReturnReachesTheEnd(up: Upgrading, t: Tables, ledger: seq<Page>, s: Stream)
    requires Inv(t) && Chain(ledger, s)
    requires ImportOutbox(up, t, ledger, s).1 == Returned
    ensures Cursor(ImportOutbox(up, t, ledger, s).0.feed.cursors, s) == End(ledger)
  {
    ImportMovesCursor(up, t, ledger, s);
  }

  /** At the ledger's end no page of it is applied any more. */
  lemma {:induction false} RerunKeepsTables(up: Upgrading, t: Tables, ledger: seq<Page>, s: Stream, k: nat)
    requires Chain(ledger, s) && k <= |ledger| && Cursor(t.feed.cursors, s) == End(ledger)
    ensures Import(up, t, ledger[..k]).tables == t
    decreases k
  {
    hide Import, ImportFeed, Chain, End;
    if k > 0 {
      RerunKeepsTables(up, t, ledger, s, k - 1);
      ImportOfLonger(up, t, ledger, k - 1);
      EndsGrow(ledger, s, k);
      ChainAt(ledger, s, k - 1);
      PageBehindKeepsTables(up, t, ledger[k - 1]);
    } else {
      assert ledger[..k] == [];
      NothingImported(up, t);
    }
  }

  lemma NothingImported(up: Upgrading, t: Tables)
    ensures Import(up, t, []).refused.None? && Import(up, t, []).tables == t
  {
  }

  lemma PageBehindKeepsTables(up: Upgrading, t: Tables, p: Page)
    requires p.to <= Cursor(t.feed.cursors, p.stream)
    ensures ImportFeed(up, t, p).0 == t
  {
    hide ApplyItems;
  }

  /** An empty page leaves no receipt, so behind the cursor it is an overlap. */
  lemma InteriorEmptyPageStops(up: Upgrading, t: Tables, ledger: seq<Page>, s: Stream, i: nat, j: nat)
    requires Inv(t) && Chain(ledger, s) && Cursor(t.feed.cursors, s) == End(ledger)
    requires i < j < |ledger| && IsEmpty(ledger[i]) && !IsEmpty(ledger[j])
    ensures Import(up, t, ledger).refused.Some?
  {
    hide Inv, ImportFeed, Import, Chain, End;
    RerunKeepsTables(up, t, ledger, s, i);
    ImportOfLonger(up, t, ledger, i);
    ChainAt(ledger, s, i);
    ChainAt(ledger, s, j);
    ChainPrefix(ledger, s, j);
    EndsGrow(ledger[..j], s, i);
    assert ledger[..j][..i] == ledger[..i];
    EndsGrow(ledger, s, j + 1);
    EmptyPageAtMost(up, t, ledger[i]);
    StoppedStays(up, t, ledger, i + 1, |ledger|);
    assert ledger[..|ledger|] == ledger;
  }

  /** Running again on the same ledger returns again exactly when no empty page
      is followed by one that is not; the tables then stay as they were. */
  lemma RerunReturnsIff(up: Upgrading, t: Tables, ledger: seq<Page>, s: Stream)
    requires Inv(t) && Chain(ledger, s)
    requires ImportOutbox(up, t, ledger, s).1 == Returned
    ensures var after := ImportOutbox(up, t, ledger, s).0;
      && (ImportOutbox(up, after, ledger, s).1 == Returned <==> EmptyPagesTrail(ledger))
      && ImportOutbox(up, after, ledger, s).0 == after
  {
    hide Inv;
    assert ledger[..|ledger|] == ledger;
    var after := ImportOutbox(up, t, ledger, s).0;
    ReturnReachesTheEnd(up, t, ledger, s);
    ImportMovesCursor(up, t, ledger, s);
    if EmptyPagesTrail(ledger) {
      RestartRepeats(up, t, ledger, s, |ledger|, |ledger|);
    } else {
      var i, j :| 0 <= i < j < |ledger| && IsEmpty(ledger[i]) && !IsEmpty(ledger[j]);
      InteriorEmptyPageStops(up, after, ledger, s, i, j);
    }
    RerunKeepsTables(up, after, ledger, s, |ledger|);
  }

  /** A ledger that opens with an empty page is imported once and then refused
      for ever, although each page alone is accepted in its turn. */
  lemma EmptyPageBreaksResumption(up: Upgrading, c: TaskCandidate, s: Stream)
    ensures var ledger: seq<Page> := [FeedPage(s, 0, 0, [], ""), FeedPage(s, 0, 1, [c], "")];
      var first := ImportOutbox(up, NO_TABLES, ledger, s);
      first.1 == Returned && ImportOutbox(up, first.0, ledger, s) == (first.0, StoppedAt(0))
  {
    var p: Page, q: Page := FeedPage(s, 0, 0, [], ""), FeedPage(s, 0, 1, [c], "");
    var ledger := [p, q];
    var t := ImportFeed(up, NO_TABLES, q).0;
    assert ApplyItems(up, NO_TABLES.book, map[], q, 0, ZERO).ItemsApplied? by {
      assert ApplyItems(up, Written(NO_TABLES.book, c), map[At(q, 0) := Key(c)], q, 1, Tally(1, 0, 0)).ItemsApplied?;
    }
    assert ledger[..1] == [p] && ledger[..0] == [] && [p][..0] == [];
    assert Import(up, NO_TABLES, [p]) == Progress(NO_TABLES, None, 0, 0, ZERO);
    assert Import(up, NO_TABLES, ledger).tables == t;
    assert Import(up, t, [p]) == Progress(t, Some(0), 0, 0, ZERO);
    assert Import(up, t, ledger) == Import(up, t, ledger[..1]);
  }
}

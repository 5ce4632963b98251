/** Reading a producer outbox (`_read_snapshot`), and what its validation is
    good for: which refusals an accepted snapshot can still meet. */
module Snapshot {
  import opened Candidate
  import opened InboxTables
  import opened InboxAgreement
  import opened InboxRuns
  import opened Outbox
  import opened Options

  /** A recognised directory entry in name order; `page` is what its content
      parses to, if it is a valid canonical page. */
  datatype PageFile = PageFile(first: nat, last: nat, page: Option<Page>)

  datatype SnapshotError =
    InvalidPage | WrongStream | NotContiguous | WrongFilename | RepeatedRevision | ChangedCreationTime

  datatype SnapshotResult = Accepted(pages: seq<Page>, cursor: nat) | Rejected(error: SnapshotError)

  function AllItems(pages: seq<Page>): seq<TaskCandidate> {
    if pages == [] then [] else AllItems(pages[..|pages| - 1]) + pages[|pages| - 1].items
  }

  ghost predicate DistinctRevisions(items: seq<TaskCandidate>) {
    forall i, j | 0 <= i < j < |items| :: Key(items[i]) != Key(items[j])
  }

  ghost predicate OneCreationTime(items: seq<TaskCandidate>) {
    forall i, j | 0 <= i < |items| && 0 <= j < |items| && items[i].identity == items[j].identity ::
      items[i].createdAt == items[j].createdAt
  }

  /** A ledger: one chain of pages in which no candidate repeats a revision or
      changes its creation time. */
  ghost predicate Ledger(pages: seq<Page>, s: Stream) {
    Chain(pages, s) && Consistent(AllItems(pages))
  }

  function PagesOf(files: seq<PageFile>): seq<Page>
    requires forall f | f in files :: f.page.Some?
  {
    seq(|files|, i requires 0 <= i < |files| => files[i].page.value)
  }

  /** A directory holds the ledger of `s`: every file parses, is named after
      its range, and together the pages are a ledger. */
  ghost predicate Holds(files: seq<PageFile>, s: Stream) {
    && (forall f | f in files :: f.page.Some? && f.first == f.page.value.from + 1 && f.last == f.page.value.to)
    && Ledger(PagesOf(files), s)
  }

  function Revisions(items: seq<TaskCandidate>): set<HistoryKey> {
    set c | c in items :: Key(c)
  }

  function Identities(items: seq<TaskCandidate>): set<Identity> {
    set c | c in items :: c.identity
  }

  ghost predicate Times(times: map<Identity, string>, items: seq<TaskCandidate>) {
    times.Keys == Identities(items) && forall c | c in items :: times[c.identity] == c.createdAt
  }

  ghost predicate Consistent(items: seq<TaskCandidate>) {
    DistinctRevisions(items) && OneCreationTime(items)
  }

  lemma ConsistentPrefix(items: seq<TaskCandidate>, k: nat)
    requires Consistent(items) && k <= |items|
    ensures Consistent(items[..k])
  {
  }

  lemma OneMoreRevision(items: seq<TaskCandidate>, c: TaskCandidate)
    requires DistinctRevisions(items)
    ensures DistinctRevisions(items + [c]) <==> Key(c) !in Revisions(items)
    ensures Revisions(items + [c]) == Revisions(items) + {Key(c)}
  {
    var more := items + [c];
    assert more[|items|] == c && forall i | 0 <= i < |items| :: more[i] == items[i];
    if Key(c) in Revisions(items) {
      var i :| 0 <= i < |items| && Key(items[i]) == Key(c);
      assert Key(more[i]) == Key(more[|items|]);
    }
  }

  lemma OneMoreTime(items: seq<TaskCandidate>, c: TaskCandidate, times: map<Identity, string>)
    requires OneCreationTime(items) && Times(times, items)
    ensures OneCreationTime(items + [c]) <==> (c.identity in times ==> times[c.identity] == c.createdAt)
    ensures OneCreationTime(items + [c]) ==> Times(times[c.identity := c.createdAt], items + [c])
  {
    var more := items + [c];
    assert more[|items|] == c && forall i | 0 <= i < |items| :: more[i] == items[i];
    if c.identity in times && times[c.identity] != c.createdAt {
      var i :| 0 <= i < |items| && items[i].identity == c.identity;
      assert more[i].createdAt != more[|items|].createdAt;
    }
  }

  /** One more item keeps a list consistent exactly when its revision is new and
      its creation time is the one already seen. */
  lemma OneMoreItem(items: seq<TaskCandidate>, c: TaskCandidate, times: map<Identity, string>)
    requires Consistent(items) && Times(times, items)
    ensures Consistent(items + [c]) <==>
      Key(c) !in Revisions(items) && (c.identity in times ==> times[c.identity] == c.createdAt)
    ensures Revisions(items + [c]) == Revisions(items) + {Key(c)}
    ensures Consistent(items + [c]) ==> Times(times[c.identity := c.createdAt], items + [c])
  {
    hide DistinctRevisions, OneCreationTime, Times, Revisions;
    OneMoreRevision(items, c);
    OneMoreTime(items, c, times);
  }

  lemma OneMoreSeen(before: seq<TaskCandidate>, items: seq<TaskCandidate>, i: nat, times: map<Identity, string>)
    requires i < |items| && Consistent(before + items[..i]) && Times(times, before + items[..i])
    ensures var c, seen, more := items[i], before + items[..i], before + items[..i + 1];
      && (Consistent(more) <==> Key(c) !in Revisions(seen) && (c.identity in times ==> times[c.identity] == c.createdAt))
      && Revisions(more) == Revisions(seen) + {Key(c)}
      && (Consistent(more) ==> Times(times[c.identity := c.createdAt], more))
      && (Consistent(before + items) ==> Consistent(more))
  {
    hide Consistent, Times, Revisions;
    OneMoreItem(before + items[..i], items[i], times);
    assert before + items[..i] + [items[i]] == before + items[..i + 1] == (before + items)[..|before| + i + 1];
    if Consistent(before + items) {
      ConsistentPrefix(before + items, |before| + i + 1);
    }
  }

  lemma {:induction false} AllItemsOfPrefix(pages: seq<Page>, k: nat)
    requires k <= |pages|
    ensures |AllItems(pages[..k])| <= |AllItems(pages)|
    ensures AllItems(pages)[..|AllItems(pages[..k])|] == AllItems(pages[..k])
    decreases |pages|
  {
    if k < |pages| {
      AllItemsOfPrefix(pages[..|pages| - 1], k);
      assert pages[..|pages| - 1][..k] == pages[..k];
    } else {
      assert pages[..k] == pages;
    }
  }

  /** Whether the `k`-th file extends the ledger held by those before it. */
  ghost predicate ExtendsLedger(files: seq<PageFile>, s: Stream, k: nat)
    requires k < |files| && Holds(files[..k], s)
  {
    files[k].page.Some? &&
    var pages, p := PagesOf(files[..k]), files[k].page.value;
    && p.stream == s && p.from == End(pages) && files[k].first == p.from + 1 && files[k].last == p.to
    && Consistent(AllItems(pages) + p.items)
  }

  lemma PagesOfOneMore(files: seq<PageFile>, k: nat)
    requires k < |files| && forall f | f in files[..k + 1] :: f.page.Some?
    ensures forall f | f in files[..k] :: f.page.Some?
    ensures PagesOf(files[..k + 1]) == PagesOf(files[..k]) + [files[k].page.value]
  {
    assert files[..k + 1] == files[..k] + [files[k]];
  }

  lemma HoldsOneMore(files: seq<PageFile>, s: Stream, k: nat)
    requires k < |files| && Holds(files[..k], s)
    ensures Holds(files[..k + 1], s) <==> ExtendsLedger(files, s, k)
  {
    assert files[..k + 1] == files[..k] + [files[k]];
    assert files[k] in files[..k + 1];
    if files[k].page.Some? {
      PagesOfOneMore(files, k);
      var pages, p := PagesOf(files[..k]), files[k].page.value;
      var more := pages + [p];
      assert more[..|pages|] == pages && more[|pages|] == p;
      assert AllItems(more) == AllItems(pages) + p.items;
      forall i | 0 <= i < |pages| ensures more[i] == pages[i] && more[..i] == pages[..i] {
      }
    }
  }

  lemma HoldsPrefix(files: seq<PageFile>, s: Stream, k: nat)
    requires Holds(files, s) && k <= |files|
    ensures Holds(files[..k], s)
  {
    var pages := PagesOf(files);
    assert forall f | f in files[..k] :: f in files;
    assert PagesOf(files[..k]) == pages[..k];
    ChainPrefix(pages, s, k);
    AllItemsOfPrefix(pages, k);
    ConsistentPrefix(AllItems(pages), |AllItems(pages[..k])|);
  }

  /** A file that does not extend the ledger so far spoils the directory. */
  lemma SpoiledDirectory(files: seq<PageFile>, s: Stream, k: nat)
    requires k < |files| && Holds(files[..k], s) && !ExtendsLedger(files, s, k)
    ensures !Holds(files, s)
  {
    HoldsOneMore(files, s, k);
    if Holds(files, s) {
      HoldsPrefix(files, s, k + 1);
    }
  }

  lemma EmptyDirectory(s: Stream)
    ensures Holds([], s) && PagesOf([]) == [] && Revisions([]) == {} && Times(map[], [])
  {
  }

  /** A snapshot is accepted exactly when the directory holds a ledger of the
      requested stream, and then it is that ledger. */
  method ReadSnapshot(files: seq<PageFile>, streamId: string) returns (r: SnapshotResult)
    ensures r.Accepted? <==> Holds(files, Stream("gw", streamId))
    ensures r.Accepted? ==> r.pages == PagesOf(files) && r.cursor == End(r.pages)
  {
    hide Consistent, Times, Revisions, Chain;
    var s := Stream("gw", streamId);
    EmptyDirectory(s);
    var pages: seq<Page> := [];
    var cursor: nat := 0;
    var revisions: set<HistoryKey> := {};
    var creationTimes: map<Identity, string> := map[];
    for k := 0 to |files|
      invariant Holds(files[..k], s) && pages == PagesOf(files[..k]) && cursor == End(pages)
      invariant revisions == Revisions(AllItems(pages)) && Times(creationTimes, AllItems(pages))
    {
      var file := files[k];
      ghost var before := AllItems(pages);
      if !ExtendsLedger(files, s, k) {
        SpoiledDirectory(files, s, k);
      }
      if file.page.None? {
        return Rejected(InvalidPage);
      }
      var feed := file.page.value;
      if feed.stream != s {
        return Rejected(WrongStream);
      }
      if feed.from != cursor {
        return Rejected(NotContiguous);
      }
      if file.first != cursor + 1 || file.last != feed.to {
        return Rejected(WrongFilename);
      }
      assert before + feed.items[..0] == before;
      for i := 0 to |feed.items|
        invariant Consistent(before + feed.items[..i])
        invariant revisions == Revisions(before + feed.items[..i]) && Times(creationTimes, before + feed.items[..i])
      {
        var candidate := feed.items[i];
        OneMoreSeen(before, feed.items, i, creationTimes);
        if Key(candidate) in revisions {
          return Rejected(RepeatedRevision);
        }
        if candidate.identity in creationTimes && creationTimes[candidate.identity] != candidate.createdAt {
          return Rejected(ChangedCreationTime);
        }
        revisions := revisions + {Key(candidate)};
        creationTimes := creationTimes[candidate.identity := candidate.createdAt];
      }
      assert feed.items[..|feed.items|] == feed.items;
      HoldsOneMore(files, s, k);
      PagesOfOneMore(files, k);
      pages := pages + [feed];
      assert pages[..|pages| - 1] == PagesOf(files[..k]);
      cursor := feed.to;
    }
    assert files[..|files|] == files;
    return Accepted(pages, cursor);
  }

  // ----- importing an accepted snapshot into a fresh inbox -----

  /** `b` was built from exactly the items `done`. */
  ghost predicate Tracks(b: Book, done: seq<TaskCandidate>) {
    && Agrees(b)
    && b.history.Keys == Revisions(done) && b.inbox.Keys == Identities(done)
    && forall c | c in done :: b.inbox[c.identity].createdAt == c.createdAt
  }

  predicate ForGeneration(r: Refusal) {
    r in {StaleGeneration, GenerationConflict, GenerationGap}
  }

  lemma NewItemMayBeWritten(b: Book, done: seq<TaskCandidate>, c: TaskCandidate)
    requires Tracks(b, done) && Consistent(done + [c])
    ensures MayWrite(b, c)
  {
    hide Consistent, Agrees;
    assert (done + [c])[..|done|] == done;
    ConsistentPrefix(done + [c], |done|);
    OneMoreItem(done, c, map id | id in b.inbox :: b.inbox[id].createdAt);
  }

  lemma IdentitiesOneMore(done: seq<TaskCandidate>, c: TaskCandidate)
    ensures Identities(done + [c]) == Identities(done) + {c.identity}
  {
    var more := done + [c];
    assert forall d | d in more :: d in done || d == c;
    assert forall d | d in done :: d in more;
    assert c in more;
  }

  lemma DistinctOneMore(done: seq<TaskCandidate>, c: TaskCandidate)
    ensures Distinct(done + [c]) == Distinct(done) + if c.identity in Identities(done) then 0 else 1
  {
    hide Identities;
    IdentitiesOneMore(done, c);
    var before, later := Identities(done), Identities(done + [c]);
    if c.identity in before {
      assert later == before;
    } else {
      assert later - {c.identity} == before;
    }
  }

  lemma TracksMeans(b: Book, done: seq<TaskCandidate>)
    requires Tracks(b, done)
    ensures Agrees(b) && b.inbox.Keys == Identities(done)
  {
  }

  lemma NewItemDecision(up: Upgrading, b: Book, c: TaskCandidate)
    requires Agrees(b) && MayWrite(b, c)
    ensures var r := Decide(up, b, c);
      if c.identity !in b.inbox then r.Inserted? else r.Updated? || (r.Refused? && ForGeneration(r.refusal))
  {
    AgreementRulesOutErrors(up, b, c);
  }

  lemma TracksWritten(b: Book, done: seq<TaskCandidate>, c: TaskCandidate)
    requires Tracks(b, done) && MayWrite(b, c)
    ensures Tracks(Written(b, c), done + [c])
  {
    hide Agrees;
    WrittenAgrees(b, c);
    assert Revisions(done + [c]) == Revisions(done) + {Key(c)};
    assert Identities(done + [c]) == Identities(done) + {c.identity};
    assert forall d | d in done + [c] :: d in done || d == c;
  }

  lemma TracksOneMore(up: Upgrading, b: Book, done: seq<TaskCandidate>, c: TaskCandidate)
    requires Tracks(b, done) && Consistent(done + [c])
    ensures var r := Decide(up, b, c);
      && !r.Failed? && !r.Unchanged? && (r.Refused? ==> ForGeneration(r.refusal))
      && (r.Inserted? ==> Distinct(done + [c]) == Distinct(done) + 1)
      && (r.Updated? ==> Distinct(done + [c]) == Distinct(done))
      && (r.Accepted() ==> Tracks(Apply(up, b, c), done + [c]))
  {
    hide Consistent, Decide, MayWrite, Agrees, Tracks, Identities, Distinct, Written;
    TracksMeans(b, done);
    NewItemMayBeWritten(b, done, c);
    NewItemDecision(up, b, c);
    TracksWritten(b, done, c);
    DistinctOneMore(done, c);
  }

  /** How many candidates `items` are revisions of. */
  function Distinct(items: seq<TaskCandidate>): nat {
    |Identities(items)|
  }

  lemma {:induction false} FreshItems(up: Upgrading, b: Book, stored: map<ItemKey, HistoryKey>, p: Page, k: nat,
                                      counts: Tally, done: seq<TaskCandidate>)
    requires k <= |p.items| && Tracks(b, done) && Consistent(done + p.items[k..])
    ensures var r := ApplyItems(up, b, stored, p, k, counts);
      && (r.ItemsRefused? ==> ForGeneration(r.refusal))
      && (r.ItemsApplied? ==>
            && Tracks(r.book, done + p.items[k..])
            && r.counts.inserted == counts.inserted + Distinct(done + p.items[k..]) - Distinct(done)
            && r.counts.inserted + r.counts.updated == counts.inserted + counts.updated + |p.items| - k
            && r.counts.untouched == counts.untouched)
    decreases |p.items| - k
  {
    hide Tracks, Consistent, Decide, Apply, Distinct;
    if k == |p.items| {
      assert done + p.items[k..] == done;
    } else {
      var c := p.items[k];
      assert done + p.items[k..] == done + [c] + p.items[k + 1..];
      assert done + [c] == (done + p.items[k..])[..|done| + 1];
      ConsistentPrefix(done + p.items[k..], |done| + 1);
      TracksOneMore(up, b, done, c);
      var result := Decide(up, b, c);
      if result.Accepted() && At(p, k) !in stored {
        FreshItems(up, Apply(up, b, c), stored[At(p, k) := Key(c)], p, k + 1, counts.Counting(result), done + [c]);
      }
    }
  }

  /** First appearances were inserts, all the others updates. */
  predicate IsFreshTally(counts: Tally, items: seq<TaskCandidate>) {
    counts.inserted == Distinct(items) && counts.inserted + counts.updated == |items| && counts.untouched == 0
  }

  /** Page `p` is refused, for a candidate's generation. */
  ghost predicate StopsForGeneration(up: Upgrading, t: Tables, p: Page) {
    var r := ImportFeed(up, t, p).1;
    r.FeedRefused? && r.reason.CandidateConflict? && ForGeneration(r.reason.refusal)
  }

  /** One page at the cursor of an inbox built from `done`. */
  lemma FreshPage(up: Upgrading, at: Progress, p: Page, k: nat, done: seq<TaskCandidate>)
    requires Inv(at.tables) && Tracks(at.tables.book, done) && Consistent(done + p.items) && at.refused.None?
    requires p.from == Cursor(at.tables.feed.cursors, p.stream)
    requires IsFreshTally(at.counts, done) && at.replayed == 0
    ensures var r := Advance(up, at, p, k);
      && (r.refused.None? ==>
            Tracks(r.tables.book, done + p.items) && IsFreshTally(r.counts, done + p.items) && r.replayed == 0)
      && (r.refused.Some? ==> r.refused.value == k && StopsForGeneration(up, at.tables, p))
  {
    hide Tracks, Consistent, Inv, ApplyItems, Distinct;
    FeedKeepsInv(up, at.tables, p);
    assert p.items[0..] == p.items;
    FreshItems(up, at.tables.book, at.tables.feed.items, p, 0, ZERO, done);
    assert IsEmpty(p) ==> done + p.items == done;
  }

  lemma {:induction false} FreshImport(up: Upgrading, pages: seq<Page>, s: Stream)
    requires Ledger(pages, s)
    ensures var r := Import(up, NO_TABLES, pages);
      && (r.refused.None? ==>
            Tracks(r.tables.book, AllItems(pages)) && IsFreshTally(r.counts, AllItems(pages)) && r.replayed == 0)
      && (r.refused.Some? ==>
            && r.refused.value < |pages|
            && StopsForGeneration(up, Import(up, NO_TABLES, pages[..r.refused.value]).tables, pages[r.refused.value]))
    decreases |pages|
  {
    hide Tracks, Consistent, Inv, Advance, IsFreshTally, StopsForGeneration;
    if pages == [] {
      EmptyTracks();
    } else {
      var n := |pages| - 1;
      var p, earlier := pages[n], pages[..n];
      ChainPrefix(pages, s, n);
      AllItemsOfPrefix(pages, n);
      ConsistentPrefix(AllItems(pages), |AllItems(earlier)|);
      FreshImport(up, earlier, s);
      EmptyInboxAgrees();
      ImportMovesCursor(up, NO_TABLES, earlier, s);
      var at := Import(up, NO_TABLES, earlier);
      if at.refused.None? {
        FreshPage(up, at, p, n, AllItems(earlier));
      } else {
        assert pages[..n][..at.refused.value] == pages[..at.refused.value];
      }
    }
  }

  lemma EmptyTracks()
    ensures Tracks(NO_TABLES.book, []) && IsFreshTally(ZERO, [])
  {
  }

  /** Importing an accepted snapshot into a fresh inbox is never refused for a
      creation time or a revision: it stops for a generation or it returns, and
      then every distinct candidate was inserted once, every other item was an
      update, and nothing was unchanged. */
  lemma AcceptedSnapshotImports(up: Upgrading, pages: seq<Page>, s: Stream)
    requires Ledger(pages, s)
    ensures var r := Import(up, NO_TABLES, pages);
      && ImportOutbox(up, NO_TABLES, pages, s).1 != LedgerBehind
      && (r.refused.None? ==>
            && r.counts.inserted == |Identities(AllItems(pages))|
            && r.counts.updated == |AllItems(pages)| - |Identities(AllItems(pages))|
            && r.counts.untouched == 0)
      && (r.refused.Some? ==>
            && r.refused.value < |pages|
            && StopsForGeneration(up, Import(up, NO_TABLES, pages[..r.refused.value]).tables, pages[r.refused.value]))
  {
    hide ApplyItems, Tracks, Import;
    FreshImport(up, pages, s);
  }
}

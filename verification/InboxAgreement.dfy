/** What every reachable inbox satisfies, whatever was imported into it. */
module InboxAgreement {
  import opened Candidate
  import opened InboxTables

  // ----- the candidate tables agree -----

  /** The row of `id` is in history, and its lifecycle row describes it. */
  predicate RowAgrees(b: Book, id: Identity)
    requires id in b.inbox && id in b.lifecycle
  {
    var row := b.inbox[id];
    && row == RowOf(row.payload) && Key(row.payload) == HistoryKey(id, row.revision)
    && HistoryKey(id, row.revision) in b.history
    && b.history[HistoryKey(id, row.revision)] == HistoryRow(row.payload, row.createdAt)
    && b.lifecycle[id] == LifecycleOf(row.payload)
  }

  /** No history without a current row; one creation time per candidate. */
  predicate HistoryAgrees(b: Book, key: HistoryKey)
    requires key in b.history
  {
    var row := b.history[key];
    && key.id in b.inbox
    && row.createdAt == b.inbox[key.id].createdAt
    && row == HistoryRow(row.payload, row.payload.createdAt) && Key(row.payload) == key
  }

  ghost predicate Agrees(b: Book) {
    && b.lifecycle.Keys == b.inbox.Keys
    && (forall id | id in b.inbox :: RowAgrees(b, id))
    && (forall key | key in b.history :: HistoryAgrees(b, key))
  }

  /** History only grows, and no stored revision is rewritten. */
  ghost predicate Extends(h: map<HistoryKey, HistoryRow>, later: map<HistoryKey, HistoryRow>) {
    forall key | key in h :: key in later && later[key] == h[key]
  }

  /** None of the raises of `_apply_candidate`, and no key violation, is
      reachable while the tables agree. */
  lemma AgreementRulesOutErrors(up: Upgrading, b: Book, c: TaskCandidate)
    requires Agrees(b)
    ensures !Decide(up, b, c).Failed?
  {
    if c.identity in b.inbox {
      assert RowAgrees(b, c.identity);
    }
    assert Key(c) in b.history ==> HistoryAgrees(b, Key(c));
  }

  /** `c` may become current: its revision is new, its creation time is not. */
  predicate MayWrite(b: Book, c: TaskCandidate) {
    Key(c) !in b.history && (c.identity in b.inbox ==> b.inbox[c.identity].createdAt == c.createdAt)
  }

  lemma WrittenRowAgrees(b: Book, c: TaskCandidate, id: Identity)
    requires Agrees(b) && MayWrite(b, c) && id in Written(b, c).inbox
    ensures id in Written(b, c).lifecycle && RowAgrees(Written(b, c), id)
  {
    assert id != c.identity ==> RowAgrees(b, id);
  }

  lemma WrittenHistoryAgrees(b: Book, c: TaskCandidate, key: HistoryKey)
    requires Agrees(b) && MayWrite(b, c) && key in Written(b, c).history
    ensures HistoryAgrees(Written(b, c), key)
  {
    assert key != Key(c) ==> HistoryAgrees(b, key);
  }

  lemma WrittenAgrees(b: Book, c: TaskCandidate)
    requires Agrees(b) && MayWrite(b, c)
    ensures Agrees(Written(b, c)) && Extends(b.history, Written(b, c).history)
  {
    hide RowAgrees, HistoryAgrees;
    var w := Written(b, c);
    forall id | id in w.inbox ensures id in w.lifecycle && RowAgrees(w, id) {
      WrittenRowAgrees(b, c, id);
    }
    forall key | key in w.history ensures HistoryAgrees(w, key) {
      WrittenHistoryAgrees(b, c, key);
    }
  }

  lemma ApplyKeepsAgreement(up: Upgrading, b: Book, c: TaskCandidate)
    requires Agrees(b)
    ensures Agrees(Apply(up, b, c)) && Extends(b.history, Apply(up, b, c).history)
    ensures Decide(up, b, c).Accepted() ==>
      Key(c) in Apply(up, b, c).history && Apply(up, b, c).history[Key(c)].payload == c
  {
    AgreementRulesOutErrors(up, b, c);
    var result := Decide(up, b, c);
    if result.Inserted? || result.Updated? {
      WrittenAgrees(b, c);
    }
  }

  /** An accepted candidate is unchanged exactly when its revision is stored with
      this very content, and importing it once more changes nothing. */
  lemma AcceptedTwiceIsUnchanged(up: Upgrading, b: Book, c: TaskCandidate)
    requires Agrees(b) && Decide(up, b, c).Accepted()
    ensures Decide(up, b, c).Unchanged? <==> Key(c) in b.history && b.history[Key(c)].payload == c
    ensures Decide(up, Apply(up, b, c), c).Unchanged?
    ensures Apply(up, Apply(up, b, c), c) == Apply(up, b, c)
  {
    if c.identity in b.inbox {
      assert RowAgrees(b, c.identity);
    }
    assert Key(c) in b.history ==> HistoryAgrees(b, Key(c));
  }

  // ----- the feed tables tile each stream -----

  /** A receipt covers a non-empty range behind the cursor. */
  predicate ReceiptFits(f: Feed, k: ReceiptKey)
    requires k in f.receipts
  {
    k == f.receipts[k].Receipt() && k.from < k.to <= Cursor(f.cursors, k.stream)
  }

  predicate Apart(k: ReceiptKey, l: ReceiptKey) {
    k.stream == l.stream && k != l ==> k.to <= l.from || l.to <= k.from
  }

  predicate Covers(k: ReceiptKey, at: ItemKey) {
    k.stream == at.stream && k.from < at.sequence <= k.to
  }

  ghost predicate Covered(receipts: set<ReceiptKey>, at: ItemKey) {
    exists k | k in receipts :: Covers(k, at)
  }

  predicate InRange(f: Feed, at: ItemKey) {
    1 <= at.sequence <= Cursor(f.cursors, at.stream)
  }

  /** Every item of the receipt's page is stored under its own sequence. */
  ghost predicate PageStored(f: Feed, h: map<HistoryKey, HistoryRow>, k: ReceiptKey)
    requires k in f.receipts
  {
    Stored(f.items, h, f.receipts[k], 0)
  }

  /** Per stream, receipts are the pieces of 0..cursor and the items are those
      of the receipts' pages, one for each sequence 1..cursor. */
  ghost predicate Tiles(f: Feed, h: map<HistoryKey, HistoryRow>) {
    && (forall k | k in f.receipts :: ReceiptFits(f, k))
    && (forall k, l | k in f.receipts && l in f.receipts :: Apart(k, l))
    && (forall at | InRange(f, at) :: Covered(f.receipts.Keys, at))
    && (forall at | at in f.items :: InRange(f, at))
    && (forall k | k in f.receipts :: PageStored(f, h, k))
  }

  /** The items of `p` from item `k` on are stored and in history. */
  ghost predicate Stored(items: map<ItemKey, HistoryKey>, h: map<HistoryKey, HistoryRow>, p: Page, k: nat) {
    forall n: nat | k <= n < |p.items| ::
      At(p, n) in items && items[At(p, n)] == Key(p.items[n]) && Key(p.items[n]) in h
  }

  /** `later` adds to `items` only sequences of `p` from item `k` on. */
  ghost predicate Grows(items: map<ItemKey, HistoryKey>, later: map<ItemKey, HistoryKey>, p: Page, k: nat) {
    && (forall at | at in items :: at in later && later[at] == items[at])
    && (forall at | at in later && at !in items :: at.stream == p.stream && p.from + k < at.sequence <= p.to)
  }

  lemma StoredFromOneEarlier(items: map<ItemKey, HistoryKey>, later: map<ItemKey, HistoryKey>,
                             h: map<HistoryKey, HistoryRow>, p: Page, k: nat)
    requires k < |p.items| && At(p, k) !in items
    requires Grows(items[At(p, k) := Key(p.items[k])], later, p, k + 1)
    requires Key(p.items[k]) in h && Stored(later, h, p, k + 1)
    ensures Grows(items, later, p, k) && Stored(later, h, p, k)
  {
    assert later[At(p, k)] == items[At(p, k) := Key(p.items[k])][At(p, k)];
  }

  /** What the item loop does to agreeing tables from item `k` on. */
  lemma ItemLoop(up: Upgrading, b: Book, items: map<ItemKey, HistoryKey>, p: Page, k: nat, counts: Tally)
    requires Agrees(b) && k <= |p.items|
    requires forall n: nat | k <= n < |p.items| :: At(p, n) !in items
    ensures var r := ApplyItems(up, b, items, p, k, counts);
      && !r.ItemsFailed?
      && (r.ItemsApplied? ==>
            && Agrees(r.book) && Extends(b.history, r.book.history)
            && r.counts.Total() == counts.Total() + |p.items| - k
            && Grows(items, r.items, p, k)
            && Stored(r.items, r.book.history, p, k))
    decreases |p.items| - k
  {
    hide Agrees, Decide, Apply;
    if k < |p.items| {
      var c := p.items[k];
      AgreementRulesOutErrors(up, b, c);
      ApplyKeepsAgreement(up, b, c);
      var result := Decide(up, b, c);
      if result.Accepted() {
        hide Grows, Stored;
        var next, grown := Apply(up, b, c), items[At(p, k) := Key(c)];
        ItemLoop(up, next, grown, p, k + 1, counts.Counting(result));
        var r := ApplyItems(up, next, grown, p, k + 1, counts.Counting(result));
        if r.ItemsApplied? {
          StoredFromOneEarlier(items, r.items, r.book.history, p, k);
        }
      }
    }
  }

  ghost predicate Appends(f: Feed, p: Page, later: Feed, h: map<HistoryKey, HistoryRow>) {
    && p.from == Cursor(f.cursors, p.stream) && p.from < p.to
    && later.cursors == f.cursors[p.stream := p.to] && later.receipts == f.receipts[p.Receipt() := p]
    && Grows(f.items, later.items, p, 0) && Stored(later.items, h, p, 0)
  }

  lemma ReceiptIsNew(f: Feed, h: map<HistoryKey, HistoryRow>, p: Page)
    requires Tiles(f, h) && p.from == Cursor(f.cursors, p.stream) && p.from < p.to
    ensures p.Receipt() !in f.receipts
    ensures forall n: nat | n < |p.items| :: At(p, n) !in f.items
  {
    assert p.Receipt() in f.receipts ==> ReceiptFits(f, p.Receipt());
    forall n: nat | n < |p.items| ensures At(p, n) !in f.items {
      assert !InRange(f, At(p, n));
    }
  }

  lemma AppendKeepsCover(f: Feed, p: Page, later: Feed, h: map<HistoryKey, HistoryRow>, at: ItemKey)
    requires Tiles(f, h) && Appends(f, p, later, h) && InRange(later, at)
    ensures Covered(later.receipts.Keys, at)
  {
    if InRange(f, at) {
      var k :| k in f.receipts.Keys && Covers(k, at);
      assert k in later.receipts.Keys;
    } else {
      assert p.Receipt() in later.receipts.Keys && Covers(p.Receipt(), at);
    }
  }

  lemma AppendKeepsPage(f: Feed, p: Page, later: Feed, h: map<HistoryKey, HistoryRow>,
                        laterHistory: map<HistoryKey, HistoryRow>, k: ReceiptKey)
    requires Tiles(f, h) && Extends(h, laterHistory) && Appends(f, p, later, laterHistory) && k in later.receipts
    ensures PageStored(later, laterHistory, k) && ReceiptFits(later, k)
  {
    if k != p.Receipt() {
      assert PageStored(f, h, k) && ReceiptFits(f, k);
    }
  }

  lemma AppendKeepsTiles(f: Feed, h: map<HistoryKey, HistoryRow>, p: Page, later: Feed,
                         laterHistory: map<HistoryKey, HistoryRow>)
    requires Tiles(f, h) && Extends(h, laterHistory) && Appends(f, p, later, laterHistory)
    ensures Tiles(later, laterHistory)
  {
    forall at | InRange(later, at) ensures Covered(later.receipts.Keys, at) {
      AppendKeepsCover(f, p, later, laterHistory, at);
    }
    forall k | k in later.receipts ensures PageStored(later, laterHistory, k) && ReceiptFits(later, k) {
      AppendKeepsPage(f, p, later, h, laterHistory, k);
    }
    forall k, l | k in later.receipts && l in later.receipts ensures Apart(k, l) {
      assert k in f.receipts ==> ReceiptFits(f, k);
      assert l in f.receipts ==> ReceiptFits(f, l);
    }
    forall at | at in later.items ensures InRange(later, at) {
      assert at in f.items ==> InRange(f, at);
    }
  }
}

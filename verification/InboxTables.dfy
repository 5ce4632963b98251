/** The inbox tables and what each import transaction does to them.

    A transaction that is refused, replayed or raises rolls back, so its
    result carries the tables it started from. Stored JSON texts are held as
    the parsed value they are the canonical text of, a candidate id as the
    identity it digests, and a page digest as the page. Import timestamps are
    omitted: nothing modelled here reads them back.

    Everything is stated for an arbitrary upgrade relation `up` between a
    stored and an incoming candidate; the inbox uses `IsContractUpgrade`. */
module InboxTables {
  import opened Candidate
  import Json
  import opened Options

  type Upgrading = (TaskCandidate, TaskCandidate) -> bool

  // ----- candidate_inbox, candidate_revision_history, candidate_lifecycle -----

  datatype InboxRow = InboxRow(revision: string, payload: TaskCandidate, createdAt: string)
  datatype HistoryKey = HistoryKey(id: Identity, revision: string)
  datatype HistoryRow = HistoryRow(payload: TaskCandidate, createdAt: string)
  datatype LifecycleRow = LifecycleRow(revision: string, state: string, generation: nat, changedAt: Option<string>)

  datatype Book = Book(
    inbox: map<Identity, InboxRow>,
    history: map<HistoryKey, HistoryRow>,
    lifecycle: map<Identity, LifecycleRow>)

  datatype Refusal =
    RevisionConflict | CreatedAtConflict | StaleGeneration | GenerationConflict | GenerationGap

  /** The raises of `_apply_candidate`, and a violated table key. */
  datatype InboxError =
    | HistoryIsInconsistent
    | LifecycleIsIncomplete
    | InboxAndHistoryAreInconsistent
    | HistoryIsIncomplete
    | KeyViolated

  datatype ImportResult = Inserted | Unchanged | Updated | Refused(refusal: Refusal) | Failed(error: InboxError)
  {
    predicate Accepted() { Inserted? || Unchanged? || Updated? }
  }

  function Key(c: TaskCandidate): HistoryKey {
    HistoryKey(c.identity, c.revision)
  }

  function RowOf(c: TaskCandidate): InboxRow {
    InboxRow(c.revision, c, c.createdAt)
  }

  function LifecycleOf(c: TaskCandidate): LifecycleRow {
    LifecycleRow(c.revision, c.lifecycle.state, c.lifecycle.generation, c.lifecycle.changedAt)
  }

  /** The tables after `c` became the current revision of its candidate. */
  function Written(b: Book, c: TaskCandidate): Book {
    Book(b.inbox[c.identity := RowOf(c)],
         b.history[Key(c) := HistoryRow(c, c.createdAt)],
         b.lifecycle[c.identity := LifecycleOf(c)])
  }

  /** The decision of `_apply_candidate`, branch for branch. */
  function Decide(up: Upgrading, b: Book, c: TaskCandidate): ImportResult {
    var id, key := c.identity, Key(c);
    if id !in b.inbox then
      if key in b.history then Failed(HistoryIsInconsistent)
      else if id in b.lifecycle then Failed(KeyViolated)
      else Inserted
    else
      var row := b.inbox[id];
      if row.createdAt != c.createdAt then Refused(CreatedAtConflict)
      else if id !in b.lifecycle then Failed(LifecycleIsIncomplete)
      else
        var current, incoming := b.lifecycle[id].generation, c.lifecycle.generation;
        var upgrade := up(row.payload, c);
        if incoming < current && !upgrade then Refused(StaleGeneration)
        else if incoming == current && incoming > 0
                && (row.revision != c.revision || row.payload != c) && !upgrade then
          Refused(GenerationConflict)
        else if incoming > current && current > 0 && incoming != current + 1 && !upgrade then
          Refused(GenerationGap)
        else if key in b.history then
          if b.history[key].createdAt != c.createdAt then Refused(CreatedAtConflict)
          else if b.history[key].payload != c then Refused(RevisionConflict)
          else if row.revision == c.revision && row.payload != c then Failed(InboxAndHistoryAreInconsistent)
          else Unchanged
        else if row.revision == c.revision then Failed(HistoryIsIncomplete)
        else Updated
  }

  function Apply(up: Upgrading, b: Book, c: TaskCandidate): Book {
    var result := Decide(up, b, c);
    if result.Inserted? || result.Updated? then Written(b, c) else b
  }

  // ----- candidate_feed_cursors, candidate_feed_receipts, candidate_feed_items -----

  datatype Stream = Stream(producer: string, id: string)
  datatype ReceiptKey = ReceiptKey(stream: Stream, from: nat, to: nat)
  datatype ItemKey = ItemKey(stream: Stream, sequence: nat)

  /** A page as `parse_candidate_feed` returns it; item `k` has sequence
      `from + 1 + k`. */
  datatype FeedPage = FeedPage(stream: Stream, from: nat, to: nat, items: seq<TaskCandidate>, emittedAt: string)
  {
    function Receipt(): ReceiptKey {
      ReceiptKey(stream, from, to)
    }
  }

  type Page = p: FeedPage | p.from <= p.to && |p.items| == p.to - p.from
    witness FeedPage(Stream("", ""), 0, 0, [], "")

  /** A receipt holds the page its digest was taken of. */
  datatype Feed = Feed(
    cursors: map<Stream, nat>, receipts: map<ReceiptKey, Page>, items: map<ItemKey, HistoryKey>)

  datatype FeedRefusal =
    CursorGap | CursorOverlap | CursorReuse | CandidateConflict(refusal: Refusal, id: Identity)

  /** The `counts` of one page. */
  datatype Tally = Tally(inserted: nat, updated: nat, untouched: nat)
  {
    function Total(): nat {
      inserted + updated + untouched
    }

    function Counting(result: ImportResult): Tally {
      match result
      case Inserted => this.(inserted := inserted + 1)
      case Updated => this.(updated := updated + 1)
      case Unchanged => this.(untouched := untouched + 1)
      case _ => this
    }
  }

  const ZERO := Tally(0, 0, 0)

  datatype FeedResult =
    | Applied(counts: Tally)
    | Replayed
    | Empty
    | FeedRefused(reason: FeedRefusal)
    | FeedFailed(error: InboxError)
  {
    predicate Accepted() { Applied? || Replayed? || Empty? }
  }

  function Cursor(cursors: map<Stream, nat>, s: Stream): nat {
    if s in cursors then cursors[s] else 0
  }

  datatype ItemsResult =
    | ItemsApplied(book: Book, items: map<ItemKey, HistoryKey>, counts: Tally)
    | ItemsRefused(refusal: Refusal, id: Identity)
    | ItemsFailed(error: InboxError)

  function At(p: Page, k: nat): ItemKey {
    ItemKey(p.stream, p.from + 1 + k)
  }

  /** The item loop of one page, from item `k` on. */
  function ApplyItems(up: Upgrading, b: Book, items: map<ItemKey, HistoryKey>, p: Page, k: nat, counts: Tally): ItemsResult
    requires k <= |p.items|
    decreases |p.items| - k
  {
    if k == |p.items| then ItemsApplied(b, items, counts)
    else
      var c := p.items[k];
      var result := Decide(up, b, c);
      if result.Refused? then ItemsRefused(result.refusal, c.identity)
      else if result.Failed? then ItemsFailed(result.error)
      else if At(p, k) in items then ItemsFailed(KeyViolated)
      else ApplyItems(up, Apply(up, b, c), items[At(p, k) := Key(c)], p, k + 1, counts.Counting(result))
  }

  // ----- task_shadow_observations, task_shadow_feed_cursors, task_shadow_feed_receipts -----

  datatype LegacyTask = LegacyTask(taskId: nat, comparableDigest: Comparable)
  datatype Observation = Observation(
    candidate: TaskCandidate, disposition: Disposition, legacy: Option<LegacyTask>,
    reason: Option<string>, observedAt: string)

  datatype Disposition = Minted | Folded | Declined | Unmapped
  {
    predicate Mapped() { Minted? || Folded? }
  }

  /** An observation as `parse_task_shadow_observation` returns it. */
  type ParsedObservation = o: Observation |
    (o.legacy.Some? <==> o.disposition.Mapped()) && (o.reason.None? <==> o.disposition.Mapped())
    witness Observation(
      TaskCandidate(1, Identity("", "", "", ""), "", None, Task("", None, None, map[]), Json.Null, "",
                    Lifecycle("active", 0, None, None)),
      Unmapped, None, Some(""), "")

  datatype Comparison = Agreed | Divergent | NotComparable(disposition: Disposition)

  datatype ObservationRow = ObservationRow(
    disposition: Disposition, legacy: Option<LegacyTask>, reason: Option<string>,
    comparison: Comparison, payload: ParsedObservation, observedAt: string)

  function Compare(o: ParsedObservation): Comparison
  {
    if o.disposition.Mapped() then
      if o.legacy.value.comparableDigest == ComparableOf(o.candidate) then Agreed else Divergent
    else NotComparable(o.disposition)
  }

  datatype ShadowFeedPage = ShadowFeedPage(
    stream: Stream, from: nat, to: nat, items: seq<ParsedObservation>, emittedAt: string)
  {
    function Receipt(): ReceiptKey {
      ReceiptKey(stream, from, to)
    }
  }

  type ShadowPage = p: ShadowFeedPage | p.from <= p.to && |p.items| == p.to - p.from
    witness ShadowFeedPage(Stream("", ""), 0, 0, [], "")

  datatype Shadow = Shadow(
    observations: map<HistoryKey, ObservationRow>, cursors: map<Stream, nat>, receipts: map<ReceiptKey, ShadowPage>)

  datatype ShadowRefusal =
    | ShadowGap | ShadowOverlap | ShadowReuse
    | CandidateMissing | ObservedCandidateConflict | ObservationConflict
  datatype ShadowResult =
    | ShadowApplied(inserted: nat, untouched: nat)
    | ShadowReplayed
    | ShadowEmpty
    | ShadowRefused(reason: ShadowRefusal)
    | ShadowFailed(error: InboxError)

  datatype ObservationResult = ObservationInserted | ObservationUnchanged | ObservationRefused(reason: ShadowRefusal)

  /** The decision of `_apply_shadow_observation`. */
  function DecideObservation(history: map<HistoryKey, HistoryRow>, observations: map<HistoryKey, ObservationRow>,
                             o: Observation): ObservationResult
  {
    var key := Key(o.candidate);
    if key !in history then ObservationRefused(CandidateMissing)
    else if history[key].payload != o.candidate then ObservationRefused(ObservedCandidateConflict)
    else if key in observations then
      if observations[key].payload == o then ObservationUnchanged
      else ObservationRefused(ObservationConflict)
    else ObservationInserted
  }

  function ObservationRowOf(o: ParsedObservation): ObservationRow
  {
    ObservationRow(o.disposition, o.legacy, o.reason, Compare(o), o, o.observedAt)
  }

  datatype ObservationsResult =
    | ObservationsApplied(observations: map<HistoryKey, ObservationRow>, inserted: nat, untouched: nat)
    | ObservationsRefused(reason: ShadowRefusal)

  /** The observation loop of one page, from observation `k` on. */
  function ApplyObservations(history: map<HistoryKey, HistoryRow>, observations: map<HistoryKey, ObservationRow>,
                             p: ShadowPage, k: nat, inserted: nat, untouched: nat): ObservationsResult
    requires k <= |p.items|
    decreases |p.items| - k
  {
    if k == |p.items| then ObservationsApplied(observations, inserted, untouched)
    else
      var o := p.items[k];
      match DecideObservation(history, observations, o)
      case ObservationRefused(reason) => ObservationsRefused(reason)
      case ObservationUnchanged => ApplyObservations(history, observations, p, k + 1, inserted, untouched + 1)
      case ObservationInserted =>
        ApplyObservations(history, observations[Key(o.candidate) := ObservationRowOf(o)], p, k + 1, inserted + 1, untouched)
  }

  // ----- transactions -----

  datatype Tables = Tables(book: Book, feed: Feed, shadow: Shadow)

  const NO_TABLES: Tables := Tables(Book(map[], map[], map[]), Feed(map[], map[], map[]), Shadow(map[], map[], map[]))

  function ImportDocument(up: Upgrading, t: Tables, c: TaskCandidate): (Tables, ImportResult) {
    (t.(book := Apply(up, t.book, c)), Decide(up, t.book, c))
  }

  function ImportFeed(up: Upgrading, t: Tables, p: Page): (Tables, FeedResult) {
    var cursor := Cursor(t.feed.cursors, p.stream);
    if p.from < cursor then
      (t, if p.Receipt() !in t.feed.receipts then FeedRefused(CursorOverlap)
          else if t.feed.receipts[p.Receipt()] != p then FeedRefused(CursorReuse)
          else Replayed)
    else if p.from > cursor then (t, FeedRefused(CursorGap))
    else if p.from == p.to then (t, Empty)
    else
      match ApplyItems(up, t.book, t.feed.items, p, 0, ZERO)
      case ItemsRefused(refusal, id) => (t, FeedRefused(CandidateConflict(refusal, id)))
      case ItemsFailed(error) => (t, FeedFailed(error))
      case ItemsApplied(book, items, counts) =>
        if p.Receipt() in t.feed.receipts then (t, FeedFailed(KeyViolated))
        else
          (t.(book := book,
              feed := Feed(t.feed.cursors[p.stream := p.to], t.feed.receipts[p.Receipt() := p], items)),
           Applied(counts))
  }

  function ImportShadowFeed(t: Tables, p: ShadowPage): (Tables, ShadowResult) {
    var cursor := Cursor(t.shadow.cursors, p.stream);
    if p.from < cursor then
      (t, if p.Receipt() !in t.shadow.receipts then ShadowRefused(ShadowOverlap)
          else if t.shadow.receipts[p.Receipt()] != p then ShadowRefused(ShadowReuse)
          else ShadowReplayed)
    else if p.from > cursor then (t, ShadowRefused(ShadowGap))
    else if p.from == p.to then (t, ShadowEmpty)
    else
      match ApplyObservations(t.book.history, t.shadow.observations, p, 0, 0, 0)
      case ObservationsRefused(reason) => (t, ShadowRefused(reason))
      case ObservationsApplied(observations, inserted, untouched) =>
        if p.Receipt() in t.shadow.receipts then (t, ShadowFailed(KeyViolated))
        else
          (t.(shadow := Shadow(observations, t.shadow.cursors[p.stream := p.to],
                               t.shadow.receipts[p.Receipt() := p])),
           ShadowApplied(inserted, untouched))
  }

  // ----- runs -----

  datatype Call = Document(candidate: TaskCandidate) | Feeding(page: Page) | Shadowing(shadow: ShadowPage)

  function Step(up: Upgrading, t: Tables, call: Call): Tables {
    match call
    case Document(c) => ImportDocument(up, t, c).0
    case Feeding(p) => ImportFeed(up, t, p).0
    case Shadowing(p) => ImportShadowFeed(t, p).0
  }

  /** Whether a call ends in an exception instead of a result. */
  predicate CallRaises(up: Upgrading, t: Tables, call: Call) {
    match call
    case Document(c) => ImportDocument(up, t, c).1.Failed?
    case Feeding(p) => ImportFeed(up, t, p).1.FeedFailed?
    case Shadowing(p) => ImportShadowFeed(t, p).1.ShadowFailed?
  }

  /** The tables after a run of calls, first call first. */
  function Run(up: Upgrading, t: Tables, calls: seq<Call>): Tables {
    if calls == [] then t else Step(up, Run(up, t, calls[..|calls| - 1]), calls[|calls| - 1])
  }
}

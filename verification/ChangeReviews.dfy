/** Keep/Undo cards: what each transaction does to the review table and to the
    tasks, and what every run of transactions keeps. Other parts of the program
    may rewrite a task between any two of them, never lowering its version. */
module ChangeReviews {
  import opened Options

  type CardId = nat
  type TaskId = nat

  /** A claim token, standing for its digest as well. */
  type Token = string

  /** Clock readings are in microseconds; stored moments are whole seconds. */
  type Instant = int

  datatype Status = Pending | Delivering | Delivered | KeptByReader | Undone
  datatype TaskStatus = Open | Done | Dropped
  datatype Task = Task(status: TaskStatus, version: nat)

  datatype Card = Card(
    task: TaskId, recordedVersion: nat, summary: string, version: nat, status: Status,
    token: Option<Token>, expiresAt: Option<Instant>, consumer: Option<string>, reference: Option<string>)

  datatype Ledger = Ledger(cards: map<CardId, Card>, nextId: CardId, tasks: map<TaskId, Task>)

  datatype Refusal = NotFound | StaleCard | InvalidState | ClaimMismatch | UndoConflict | InvalidArgument

  datatype Answer =
    | Recorded(card: CardId)
    | Unrecorded
    | NoCard
    | Claimed(card: CardId, version: nat, token: Token, expiresAt: Instant)
    | Applied(card: CardId, version: nat)
    | AlreadyDelivered(card: CardId, version: nat)
    | Refused(refusal: Refusal)
    | Written

  datatype Action = Keep | Undo | OtherAction(name: string)

  datatype Step =
    | Record(knownKind: bool, task: TaskId, summary: string)
    | Claim(now: Instant, leaseSeconds: int, token: Token, consumer: string)
    | Complete(now: Instant, card: CardId, version: nat, token: Token, reference: string)
    | Fail(now: Instant, card: CardId, version: nat, token: Token)
    | Act(card: CardId, version: nat, action: Action)
    | WriteTask(task: TaskId, written: Task)

  const MAX_SUMMARY_CHARS := 200
  const SECOND := 1_000_000

  function WholeSecond(t: Instant): Instant {
    t - t % SECOND
  }

  function NewCard(task: TaskId, recordedVersion: nat, summary: string): Card {
    var short := if |summary| > MAX_SUMMARY_CHARS then summary[..MAX_SUMMARY_CHARS] else summary;
    Card(task, recordedVersion, short, 1, Pending, None, None, None, None)
  }

  predicate Expired(c: Card, now: Instant) {
    c.status.Delivering? && c.expiresAt.Some? && c.expiresAt.value <= now
  }

  /** Back to the queue, under a new version. */
  function Returned(c: Card): Card {
    c.(status := Pending, version := c.version + 1, token := None, expiresAt := None, consumer := None)
  }

  function ReturnExpired(s: Ledger, now: Instant): Ledger {
    s.(cards := map c | c in s.cards :: if Expired(s.cards[c], now) then Returned(s.cards[c]) else s.cards[c])
  }

  predicate Claimable(s: Ledger, c: CardId) {
    c in s.cards && s.cards[c].status.Pending? && s.cards[c].task in s.tasks
  }

  /** The claimable card with the lowest id, from `c` on. */
  function FirstClaimable(s: Ledger, c: CardId): (r: Option<CardId>)
    ensures r.Some? ==> Claimable(s, r.value) && c <= r.value && forall d | c <= d < r.value :: !Claimable(s, d)
    ensures r.None? ==> forall d | c <= d < s.nextId :: !Claimable(s, d)
    decreases s.nextId - c
  {
    if c >= s.nextId then None
    else if Claimable(s, c) then Some(c)
    else FirstClaimable(s, c + 1)
  }

  function Leased(c: Card, now: Instant, leaseSeconds: int, token: Token, consumer: string): Card {
    c.(status := Delivering, version := c.version + 1, token := Some(token),
       expiresAt := Some(WholeSecond(now + leaseSeconds * SECOND)), consumer := Some(consumer))
  }

  function ClaimNext(s: Ledger, now: Instant, leaseSeconds: int, token: Token, consumer: string): (Ledger, Answer) {
    var r := ReturnExpired(s, now);
    match FirstClaimable(r, 1)
    case None => (r, NoCard)
    case Some(c) =>
      var leased := Leased(r.cards[c], now, leaseSeconds, token, consumer);
      (r.(cards := r.cards[c := leased]), Claimed(c, leased.version, token, leased.expiresAt.value))
  }

  /** `_claim_refusal`. */
  function ClaimRefusal(s: Ledger, c: CardId, version: nat, token: Token, now: Instant): Option<Refusal> {
    if c !in s.cards then Some(NotFound)
    else
      var card := s.cards[c];
      if card.version != version then Some(StaleCard)
      else if !card.status.Delivering? then Some(InvalidState)
      else if card.token != Some(token) then Some(ClaimMismatch)
      else if Expired(card, now) then Some(InvalidState)
      else None
  }

  function CompleteDelivery(s: Ledger, now: Instant, c: CardId, version: nat, token: Token, reference: string): (Ledger, Answer) {
    if c in s.cards && s.cards[c].status.Delivered? && s.cards[c].version == version then
      (s, AlreadyDelivered(c, version))
    else
      match ClaimRefusal(s, c, version, token, now)
      case Some(refusal) => (s, Refused(refusal))
      case None =>
        var done := s.cards[c].(status := Delivered, token := None, expiresAt := None, reference := Some(reference));
        (s.(cards := s.cards[c := done]), Applied(c, version))
  }

  function FailDelivery(s: Ledger, now: Instant, c: CardId, version: nat, token: Token): (Ledger, Answer) {
    match ClaimRefusal(s, c, version, token, now)
    case Some(refusal) => (s, Refused(refusal))
    case None => (s.(cards := s.cards[c := Returned(s.cards[c])]), Applied(c, version + 1))
  }

  /** The ledger's `reopen`: only a task that is done or dropped. */
  function Reopen(s: Ledger, t: TaskId): Option<Ledger> {
    if t in s.tasks && !s.tasks[t].status.Open? then
      Some(s.(tasks := s.tasks[t := Task(Open, s.tasks[t].version + 1)]))
    else None
  }

  /** `_undo`: the reopened ledger, or why not. */
  function UndoChange(s: Ledger, card: Card): (Ledger, Option<Refusal>) {
    if card.task !in s.tasks then (s, Some(NotFound))
    else if s.tasks[card.task].version != card.recordedVersion then (s, Some(UndoConflict))
    else
      match Reopen(s, card.task)
      case None => (s, Some(UndoConflict))
      case Some(reopened) => (reopened, None)
  }

  function Resolve(s: Ledger, c: CardId, status: Status): Ledger
    requires c in s.cards
  {
    s.(cards := s.cards[c := s.cards[c].(status := status, version := s.cards[c].version + 1)])
  }

  function Decide(s: Ledger, c: CardId, version: nat, action: Action): (Ledger, Answer) {
    if action.OtherAction? then (s, Refused(InvalidArgument))
    else if c !in s.cards then (s, Refused(NotFound))
    else if s.cards[c].version != version then (s, Refused(StaleCard))
    else if !s.cards[c].status.Delivered? then (s, Refused(InvalidState))
    else if action.Keep? then (Resolve(s, c, KeptByReader), Applied(c, version + 1))
    else
      var (reopened, refusal) := UndoChange(s, s.cards[c]);
      if refusal.Some? then (s, Refused(refusal.value))
      else (Resolve(reopened, c, Undone), Applied(c, version + 1))
  }

  function Next(s: Ledger, step: Step): (Ledger, Answer) {
    match step
    case Record(known, t, summary) =>
      if !known || t !in s.tasks then (s, Unrecorded)
      else (s.(cards := s.cards[s.nextId := NewCard(t, s.tasks[t].version, summary)], nextId := s.nextId + 1),
            Recorded(s.nextId))
    case Claim(now, lease, token, consumer) => ClaimNext(s, now, lease, token, consumer)
    case Complete(now, c, version, token, reference) => CompleteDelivery(s, now, c, version, token, reference)
    case Fail(now, c, version, token) => FailDelivery(s, now, c, version, token)
    case Act(c, version, action) => Decide(s, c, version, action)
    case WriteTask(t, written) =>
      if t in s.tasks && written.version < s.tasks[t].version then (s, Written)
      else (s.(tasks := s.tasks[t := written]), Written)
  }

  const EMPTY: Ledger := Ledger(map[], 1, map[])

  /** The ledger before step `n`. */
  function Before(steps: seq<Step>, n: nat): Ledger
    requires n <= |steps|
  {
    if n == 0 then EMPTY else Next(Before(steps, n - 1), steps[n - 1]).0
  }

  function AnswerOf(steps: seq<Step>, n: nat): Answer
    requires n < |steps|
  {
    Next(Before(steps, n), steps[n]).1
  }

  // ----- one step -----

  predicate CardFits(s: Ledger, c: CardId)
    requires c in s.cards
  {
    var card := s.cards[c];
    && 1 <= c < s.nextId && card.version >= 1
    && (card.token.Some? <==> card.status.Delivering?)
    && (card.expiresAt.Some? <==> card.status.Delivering?)
    && card.task in s.tasks && card.recordedVersion <= s.tasks[card.task].version
  }

  ghost predicate Fits(s: Ledger) {
    s.nextId >= 1 && forall c | c in s.cards :: CardFits(s, c)
  }

  /** Grows with every write to a card. */
  function Position(c: Card): nat {
    2 * c.version + (if c.status.Delivering? then 0 else 1)
  }

  function Stage(c: Card): nat {
    match c.status
    case Pending => 0
    case Delivering => 0
    case Delivered => 1
    case KeptByReader => 2
    case Undone => 2
  }

  lemma ClaimFits(s: Ledger, step: Step)
    requires Fits(s) && step.Claim?
    ensures Fits(Next(s, step).0)
  {
    var r := ReturnExpired(s, step.now);
    forall c | c in r.cards ensures CardFits(r, c) {
      assert CardFits(s, c);
    }
    var t := Next(s, step).0;
    forall c | c in t.cards ensures CardFits(t, c) {
      assert CardFits(r, c);
    }
  }

  lemma NextFits(s: Ledger, step: Step)
    requires Fits(s)
    ensures Fits(Next(s, step).0)
  {
    hide ClaimNext;
    if step.Claim? {
      ClaimFits(s, step);
      return;
    }
    var t := Next(s, step).0;
    forall c | c in t.cards ensures CardFits(t, c) {
      if c in s.cards {
        assert CardFits(s, c);
      }
    }
  }

  /** A card is left alone or moves forward; a resolved one is left alone. */
  lemma CardsMoveForward(s: Ledger, step: Step, c: CardId)
    requires Fits(s) && c in s.cards
    ensures var t := Next(s, step).0;
      && c in t.cards
      && (t.cards[c] == s.cards[c] || Position(t.cards[c]) > Position(s.cards[c]))
      && Stage(t.cards[c]) >= Stage(s.cards[c])
      && (Stage(s.cards[c]) == 2 ==> t.cards[c] == s.cards[c])
      && t.cards[c].task == s.cards[c].task && t.cards[c].recordedVersion == s.cards[c].recordedVersion
  {
    hide ClaimNext;
    assert CardFits(s, c);
    if step.Claim? {
      ClaimMovesForward(s, step, c);
    }
  }

  lemma ClaimMovesForward(s: Ledger, step: Step, c: CardId)
    requires c in s.cards && step.Claim?
    ensures var t := ClaimNext(s, step.now, step.leaseSeconds, step.token, step.consumer).0;
      && c in t.cards
      && (t.cards[c] == s.cards[c] || (Position(t.cards[c]) > Position(s.cards[c]) && Stage(s.cards[c]) == 0))
      && Stage(t.cards[c]) == Stage(s.cards[c])
      && t.cards[c].task == s.cards[c].task && t.cards[c].recordedVersion == s.cards[c].recordedVersion
  {
  }

  lemma TasksMoveForward(s: Ledger, step: Step, k: TaskId)
    requires k in s.tasks
    ensures var t := Next(s, step).0; k in t.tasks && t.tasks[k].version >= s.tasks[k].version
  {
  }

  /** A card comes to be delivered to a claimant by that claim alone. */
  lemma OnlyClaimsLease(s: Ledger, step: Step, c: CardId)
    requires Fits(s)
    ensures var (t, answer) := Next(s, step);
      c in t.cards && t.cards[c].status.Delivering? && (c !in s.cards || t.cards[c] != s.cards[c]) ==>
        && step.Claim?
        && answer == Claimed(c, t.cards[c].version, step.token, t.cards[c].expiresAt.value)
        && t.cards[c].token == Some(step.token)
  {
  }

  // ----- whole runs -----

  lemma {:induction false} RunFits(steps: seq<Step>, n: nat)
    requires n <= |steps|
    ensures Fits(Before(steps, n))
  {
    hide Next, Fits;
    if n == 0 {
      EmptyFits();
    } else {
      RunFits(steps, n - 1);
      NextFits(Before(steps, n - 1), steps[n - 1]);
    }
  }

  lemma EmptyFits()
    ensures Fits(EMPTY)
  {
  }

  /** A token is kept exactly while its card is out for delivery. */
  lemma TokensMarkDeliveries(steps: seq<Step>, c: CardId)
    ensures var s := Before(steps, |steps|);
      c in s.cards ==>
        && (s.cards[c].token.Some? <==> s.cards[c].status.Delivering?)
        && (s.cards[c].expiresAt.Some? <==> s.cards[c].status.Delivering?)
  {
    hide Before, Next;
    RunFits(steps, |steps|);
    var s := Before(steps, |steps|);
    if c in s.cards {
      assert CardFits(s, c);
    }
  }

  /** Cards never go back, and versions never fall. */
  lemma {:induction false} CardsNeverGoBack(steps: seq<Step>, i: nat, j: nat, c: CardId)
    requires i <= j <= |steps| && c in Before(steps, i).cards
    ensures c in Before(steps, j).cards
    ensures var a, b := Before(steps, i).cards[c], Before(steps, j).cards[c];
      && (a == b || Position(a) < Position(b)) && a.version <= b.version
      && Stage(a) <= Stage(b) && (Stage(a) == 2 ==> a == b)
      && a.task == b.task && a.recordedVersion == b.recordedVersion
    decreases j
  {
    hide Next, Fits;
    if i < j {
      CardsNeverGoBack(steps, i, j - 1, c);
      RunFits(steps, j - 1);
      CardsMoveForward(Before(steps, j - 1), steps[j - 1], c);
    }
  }

  lemma {:induction false} TasksNeverGoBack(steps: seq<Step>, i: nat, j: nat, k: TaskId)
    requires i <= j <= |steps| && k in Before(steps, i).tasks
    ensures k in Before(steps, j).tasks && Before(steps, i).tasks[k].version <= Before(steps, j).tasks[k].version
    decreases j
  {
    hide Next;
    if i < j {
      TasksNeverGoBack(steps, i, j - 1, k);
      TasksMoveForward(Before(steps, j - 1), steps[j - 1], k);
    }
  }

  /** Step `i` reports on the claim of card `c` under `version`, and is heeded. */
  predicate Heeded(steps: seq<Step>, i: nat, c: CardId, version: nat)
    requires i < |steps|
  {
    (steps[i].Complete? || steps[i].Fail?) && steps[i].card == c && steps[i].version == version
    && AnswerOf(steps, i).Applied?
  }

  lemma HeededMeans(steps: seq<Step>, i: nat, c: CardId, version: nat)
    requires i < |steps| && Heeded(steps, i, c, version)
    ensures var s, t := Before(steps, i), Before(steps, i + 1);
      && c in s.cards && s.cards[c].status.Delivering? && s.cards[c].version == version
      && s.cards[c].token == Some(steps[i].token) && !Expired(s.cards[c], steps[i].now)
      && c in t.cards && Position(t.cards[c]) > 2 * version
      && (steps[i].Complete? ==> t.cards[c].status.Delivered?)
  {
    hide Before;
    var s := Before(steps, i);
    assert Before(steps, i + 1) == Next(s, steps[i]).0 by { BeforeNext(steps, i); }
  }

  lemma BeforeNext(steps: seq<Step>, i: nat)
    requires i < |steps|
    ensures Before(steps, i + 1) == Next(Before(steps, i), steps[i]).0
  {
  }

  /** A claim is answered at most once, by a completion or by a failure. */
  lemma ClaimsAreAnsweredOnce(steps: seq<Step>, i: nat, j: nat, c: CardId, version: nat)
    requires i < |steps| && j < |steps| && Heeded(steps, i, c, version) && Heeded(steps, j, c, version)
    ensures i == j
  {
    hide Heeded, Before, Next;
    if i < j {
      AnswersComeLater(steps, i, j, c, version);
    } else if j < i {
      AnswersComeLater(steps, j, i, c, version);
    }
  }

  lemma AnswersComeLater(steps: seq<Step>, i: nat, j: nat, c: CardId, version: nat)
    requires i < j < |steps| && Heeded(steps, i, c, version)
    ensures !Heeded(steps, j, c, version)
  {
    hide Heeded, Before, Next;
    HeededMeans(steps, i, c, version);
    CardsNeverGoBack(steps, i + 1, j, c);
    if Heeded(steps, j, c, version) {
      HeededMeans(steps, j, c, version);
    }
  }

  /** Step `i` handed out card `c` and nobody has touched the card since. */
  ghost predicate HeldSince(steps: seq<Step>, i: nat, n: nat, c: CardId)
    requires i < n <= |steps|
  {
    && c in Before(steps, n).cards && steps[i].Claim?
    && var card := Before(steps, n).cards[c];
    && card.token == Some(steps[i].token) && card.expiresAt.Some?
    && AnswerOf(steps, i) == Claimed(c, card.version, steps[i].token, card.expiresAt.value)
    && forall k | i < k <= n :: c in Before(steps, k).cards && Before(steps, k).cards[c] == card
  }

  lemma {:induction false} DeliveriesAreHeld(steps: seq<Step>, n: nat, c: CardId) returns (i: nat)
    requires n <= |steps| && c in Before(steps, n).cards && Before(steps, n).cards[c].status.Delivering?
    ensures i < n && HeldSince(steps, i, n, c)
  {
    hide Next, Fits;
    var s, t := Before(steps, n - 1), Before(steps, n);
    RunFits(steps, n - 1);
    RunFits(steps, n);
    OnlyClaimsLease(s, steps[n - 1], c);
    if c in s.cards && t.cards[c] == s.cards[c] {
      i := DeliveriesAreHeld(steps, n - 1, c);
    } else {
      i := n - 1;
      DeliveringExpires(t, c);
    }
  }

  lemma DeliveringExpires(s: Ledger, c: CardId)
    requires Fits(s) && c in s.cards && s.cards[c].status.Delivering?
    ensures s.cards[c].expiresAt.Some?
  {
    assert CardFits(s, c);
  }

  /** Whoever completes or fails a delivery holds the claim: it was handed out
      with that token and version, has not expired, and the card has not been
      returned or claimed again since. */
  lemma OnlyTheHolderIsHeeded(steps: seq<Step>, j: nat, c: CardId, version: nat) returns (i: nat)
    requires j < |steps| && Heeded(steps, j, c, version)
    ensures i < j && HeldSince(steps, i, j, c) && steps[i].token == steps[j].token
    ensures AnswerOf(steps, i).version == version && AnswerOf(steps, i).expiresAt > steps[j].now
  {
    hide Before, Next, Heeded;
    HeededMeans(steps, j, c, version);
    i := DeliveriesAreHeld(steps, j, c);
  }

  /** A card is delivered at most once, under whatever version. */
  lemma DeliveredAtMostOnce(steps: seq<Step>, i: nat, j: nat, c: CardId)
    requires i < j < |steps| && steps[i].Complete? && steps[j].Complete?
    requires Heeded(steps, i, c, steps[i].version)
    ensures !Heeded(steps, j, c, steps[j].version)
  {
    hide Before, Next, Heeded;
    HeededMeans(steps, i, c, steps[i].version);
    CardsNeverGoBack(steps, i + 1, j, c);
    if Heeded(steps, j, c, steps[j].version) {
      HeededMeans(steps, j, c, steps[j].version);
    }
  }

  /** Step `i` resolves card `c`. */
  predicate Resolves(steps: seq<Step>, i: nat, c: CardId)
    requires i < |steps|
  {
    steps[i].Act? && steps[i].card == c && AnswerOf(steps, i).Applied?
  }

  /** Exactly what an applied action found and did. */
  lemma ActMeans(s: Ledger, c: CardId, version: nat, action: Action)
    ensures var (t, answer) := Next(s, Act(c, version, action));
      && (answer.Applied? <==>
            && c in s.cards && s.cards[c].version == version && s.cards[c].status.Delivered?
            && (action.Keep? || (action.Undo?
                && s.cards[c].task in s.tasks
                && s.tasks[s.cards[c].task].version == s.cards[c].recordedVersion
                && !s.tasks[s.cards[c].task].status.Open?)))
      && (!answer.Applied? ==> answer.Refused? && t == s)
      && (answer.Applied? ==>
            && t.cards == s.cards[c := s.cards[c].(
                 status := if action.Keep? then KeptByReader else Undone, version := version + 1)]
            && t.tasks == if action.Keep? then s.tasks
                          else s.tasks[s.cards[c].task := Task(Open, s.cards[c].recordedVersion + 1)])
  {
  }

  /** Why an action is refused, exactly. */
  lemma ActRefusals(s: Ledger, c: CardId, version: nat, action: Action)
    ensures var r := Next(s, Act(c, version, action)).1;
      var found, current := c in s.cards, c in s.cards && s.cards[c].version == version;
      var open := current && s.cards[c].status.Delivered?;
      && (r == Refused(InvalidArgument) <==> action.OtherAction?)
      && (r == Refused(StaleCard) <==> !action.OtherAction? && found && !current)
      && (r == Refused(InvalidState) <==> !action.OtherAction? && current && !open)
      && (r == Refused(UndoConflict) <==>
            action.Undo? && open && s.cards[c].task in s.tasks
            && (s.tasks[s.cards[c].task].version != s.cards[c].recordedVersion || s.tasks[s.cards[c].task].status.Open?))
      && (r == Refused(NotFound) <==>
            !action.OtherAction? && (!found || (action.Undo? && open && s.cards[c].task !in s.tasks)))
  {
  }

  /** Why a report on a delivery is refused, exactly; a completion that repeats one is
      answered as such without asking for the token. */
  lemma ReportRefusals(s: Ledger, now: Instant, c: CardId, version: nat, token: Token, reference: string)
    requires Fits(s)
    ensures var complete, fail := Next(s, Complete(now, c, version, token, reference)).1, Next(s, Fail(now, c, version, token)).1;
      var found, current := c in s.cards, c in s.cards && s.cards[c].version == version;
      var leased := current && s.cards[c].status.Delivering?;
      var repeated := current && s.cards[c].status.Delivered?;
      && (complete == AlreadyDelivered(c, version) <==> repeated)
      && (fail == Refused(NotFound) <==> !found) && (complete == Refused(NotFound) <==> !found)
      && (fail == Refused(StaleCard) <==> found && !current) && (complete == Refused(StaleCard) <==> found && !current)
      && (fail == Refused(ClaimMismatch) <==> leased && s.cards[c].token != Some(token))
      && (complete == Refused(ClaimMismatch) <==> leased && s.cards[c].token != Some(token))
      && (fail == Refused(InvalidState) <==>
            current && (!leased || (s.cards[c].token == Some(token) && s.cards[c].expiresAt.value <= now)))
      && (complete == Refused(InvalidState) <==>
            current && !repeated && (!leased || (s.cards[c].token == Some(token) && s.cards[c].expiresAt.value <= now)))
      && (fail == Applied(c, version + 1) <==>
            leased && s.cards[c].token == Some(token) && s.cards[c].expiresAt.value > now)
      && (complete == Applied(c, version) <==>
            leased && s.cards[c].token == Some(token) && s.cards[c].expiresAt.value > now)
  {
    if c in s.cards {
      assert CardFits(s, c);
    }
  }

  /** A card is resolved at most once. */
  lemma ResolvedAtMostOnce(steps: seq<Step>, i: nat, j: nat, c: CardId)
    requires i < j < |steps| && Resolves(steps, i, c)
    ensures !Resolves(steps, j, c)
    ensures c in Before(steps, i + 1).cards && c in Before(steps, j).cards
    ensures Before(steps, j).cards[c] == Before(steps, i + 1).cards[c]
  {
    hide Before, Next;
    BeforeNext(steps, i);
    ActMeans(Before(steps, i), c, steps[i].version, steps[i].action);
    ActMeans(Before(steps, j), c, if steps[j].Act? then steps[j].version else 0, if steps[j].Act? then steps[j].action else Keep);
    CardsNeverGoBack(steps, i + 1, j, c);
  }

  /** Undoing reopens a task at most once at one version, whichever cards ask. */
  lemma ReopenedAtMostOnce(steps: seq<Step>, i: nat, j: nat, c: CardId, d: CardId)
    requires i < j < |steps| && Resolves(steps, i, c) && Resolves(steps, j, d)
    requires steps[i].action.Undo? && steps[j].action.Undo?
    requires c in Before(steps, i).cards && d in Before(steps, j).cards
    requires Before(steps, i).cards[c].task == Before(steps, j).cards[d].task
    ensures Before(steps, i).cards[c].recordedVersion < Before(steps, j).cards[d].recordedVersion
  {
    hide Before, Next;
    BeforeNext(steps, i);
    ActMeans(Before(steps, i), c, steps[i].version, Undo);
    ActMeans(Before(steps, j), d, steps[j].version, Undo);
    TasksNeverGoBack(steps, i + 1, j, Before(steps, i).cards[c].task);
  }

  /** Between them, cards only open a task by an undo: a transaction on cards that
      changes any task is an applied undo. */
  lemma OnlyUndoTouchesTasks(s: Ledger, step: Step)
    requires !step.WriteTask? && Next(s, step).0.tasks != s.tasks
    ensures step.Act? && step.action.Undo? && Next(s, step).1.Applied?
  {
  }

  /** A claim hands out the oldest card that waits or whose lease has run out, and
      none only if there is none, for the seconds asked for, cut to a whole second;
      a lease that still runs is not disturbed, and one that has run out ends. */
  lemma ClaimTakesTheOldest(s: Ledger, now: Instant, lease: int, token: Token, consumer: string)
    requires Fits(s)
    ensures var (t, answer) := Next(s, Claim(now, lease, token, consumer));
      && (answer.NoCard? || answer.Claimed?)
      && (answer.NoCard? <==> forall c | c in s.cards :: !Waiting(s.cards[c], now))
      && (answer.Claimed? ==>
            && answer.card in s.cards && Waiting(s.cards[answer.card], now)
            && (forall c | c in s.cards && c < answer.card :: !Waiting(s.cards[c], now))
            && answer.version == s.cards[answer.card].version + (if s.cards[answer.card].status.Pending? then 1 else 2)
            && answer.card in t.cards
            && var leased := t.cards[answer.card];
            && leased.status.Delivering? && leased.version == answer.version && leased.token == Some(token)
            && leased.consumer == Some(consumer) && leased.expiresAt == Some(answer.expiresAt) && answer.token == token
            && answer.expiresAt <= now + lease * 1_000_000 < answer.expiresAt + 1_000_000
            && answer.expiresAt % 1_000_000 == 0)
      && (forall c | c in s.cards && !Waiting(s.cards[c], now) :: c in t.cards && t.cards[c] == s.cards[c])
      && (forall c | c in s.cards && s.cards[c].status.Pending? && !(answer.Claimed? && answer.card == c) ::
            c in t.cards && t.cards[c] == s.cards[c])
      && (forall c | c in s.cards && s.cards[c].status.Delivering? && Waiting(s.cards[c], now)
                     && !(answer.Claimed? && answer.card == c) ::
            && c in t.cards && t.cards[c].status.Pending? && t.cards[c].version == s.cards[c].version + 1
            && t.cards[c].token.None? && t.cards[c].expiresAt.None? && t.cards[c].consumer.None?)
      && t.tasks == s.tasks && t.nextId == s.nextId && t.cards.Keys == s.cards.Keys
  {
    var r := ReturnExpired(s, now);
    forall c | c in s.cards ensures 1 <= c < r.nextId && (Claimable(r, c) <==> Waiting(s.cards[c], now)) {
      assert CardFits(s, c);
    }
  }

  predicate Waiting(c: Card, now: Instant) {
    c.status.Pending? || (c.status.Delivering? && c.expiresAt.Some? && c.expiresAt.value <= now)
  }
}

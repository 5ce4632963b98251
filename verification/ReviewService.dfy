/** `ChangeReviewService` as it runs: each method is one immediate transaction on
    the tables, rolled back when it refuses. */
module ReviewService {
  import opened ChangeReviews
  import opened Options

  class ChangeReviewService {
    var cards: map<CardId, Card>
    var nextId: CardId
    var tasks: map<TaskId, Task>

    function View(): Ledger
      reads this
    {
      Ledger(cards, nextId, tasks)
    }

    constructor ()
      ensures View() == EMPTY
    {
      cards, nextId, tasks := map[], 1, map[];
    }

    /** Called in the transaction that made the change: the card is a new one, at
        version 1, free to claim, and records the version the change left. */
    method RecordChange(knownKind: bool, task: TaskId, summary: string) returns (answer: Answer)
      modifies `cards, `nextId
      ensures (View(), answer) == Next(old(View()), Record(knownKind, task, summary))
      ensures answer.Recorded? <==> knownKind && task in tasks
      ensures answer.Unrecorded? <==> !answer.Recorded?
      ensures answer.Unrecorded? ==> cards == old(cards)
      ensures answer.Recorded? ==>
                && answer.card in cards && Claimable(View(), answer.card) && cards[answer.card].version == 1
                && cards[answer.card].task == task && cards[answer.card].recordedVersion == tasks[task].version
                && cards[answer.card].summary <= summary && |cards[answer.card].summary| <= MAX_SUMMARY_CHARS
      ensures Fits(old(View())) && answer.Recorded? ==> answer.card !in old(cards) && cards - {answer.card} == old(cards)
    {
      if !knownKind || task !in tasks {
        return Unrecorded;
      }
      cards := cards[nextId := NewCard(task, tasks[task].version, summary)];
      answer := Recorded(nextId);
      nextId := nextId + 1;
    }

    /** An expired lease returns its card to the queue. */
    method ReturnExpiredLeases(now: Instant)
      modifies `cards
      ensures View() == ReturnExpired(old(View()), now)
    {
      ghost var s := View();
      var left := set c | c in cards && cards[c].status.Delivering?;
      while left != {}
        invariant cards.Keys == s.cards.Keys
        invariant left <= set c | c in s.cards && s.cards[c].status.Delivering?
        invariant forall c | c in s.cards ::
                    cards[c] == if c !in left && Expired(s.cards[c], now) then Returned(s.cards[c]) else s.cards[c]
      {
        var c :| c in left;
        if Expired(cards[c], now) {
          cards := cards[c := Returned(cards[c])];
        }
        left := left - {c};
      }
      assert cards == ReturnExpired(s, now).cards;
    }

    method ClaimNextCard(now: Instant, leaseSeconds: int, token: Token, consumer: string) returns (answer: Answer)
      requires nextId >= 1
      modifies `cards
      ensures (View(), answer) == Next(old(View()), Claim(now, leaseSeconds, token, consumer))
    {
      hide Expired, Returned, ReturnExpired, Leased;
      ReturnExpiredLeases(now);
      ghost var r := View();
      var c := 1;
      while c < nextId && !(c in cards && cards[c].status.Pending? && cards[c].task in tasks)
        invariant 1 <= c <= nextId && FirstClaimable(r, 1) == FirstClaimable(r, c)
      {
        c := c + 1;
      }
      if c == nextId {
        return NoCard;
      }
      var leased := Leased(cards[c], now, leaseSeconds, token, consumer);
      LeasedExpires(cards[c], now, leaseSeconds, token, consumer);
      cards := cards[c := leased];
      answer := Claimed(c, leased.version, token, leased.expiresAt.value);
    }

    /** It is heeded exactly for the version and token of a claim that has not run
        out; then the card is delivered, or waits again under a new version. */
    method FinishClaim(now: Instant, card: CardId, version: nat, token: Token, delivered: Option<string>)
      returns (answer: Answer)
      modifies `cards
      ensures delivered.Some? ==>
                (View(), answer) == Next(old(View()), Complete(now, card, version, token, delivered.value))
      ensures delivered.None? ==> (View(), answer) == Next(old(View()), Fail(now, card, version, token))
      ensures answer.Applied? <==>
                && card in old(cards) && old(cards)[card].status.Delivering? && old(cards)[card].version == version
                && old(cards)[card].token == Some(token) && !Expired(old(cards)[card], now)
      ensures !answer.Applied? ==> cards == old(cards)
      ensures answer.Applied? ==>
                && card in cards && cards[card].token.None? && cards[card].expiresAt.None?
                && cards[card].version == answer.version == (if delivered.Some? then version else version + 1)
                && (cards[card].status == if delivered.Some? then Delivered else Pending)
                && (delivered.Some? ==> cards[card].reference == delivered) && cards - {card} == old(cards) - {card}
    {
      if delivered.Some? && card in cards && cards[card].status.Delivered? && cards[card].version == version {
        return AlreadyDelivered(card, version);
      }
      var refusal := ClaimRefusal(View(), card, version, token, now);
      if refusal.Some? {
        return Refused(refusal.value);
      }
      if delivered.Some? {
        cards := cards[card := cards[card].(status := Delivered, token := None, expiresAt := None,
                                            reference := delivered)];
        answer := Applied(card, version);
      } else {
        cards := cards[card := Returned(cards[card])];
        answer := Applied(card, version + 1);
      }
    }

    /** Undo writes the task table first; a refusal leaves both tables as they were. */
    method ActOnCard(card: CardId, version: nat, action: Action) returns (answer: Answer)
      modifies `cards, `tasks
      ensures (View(), answer) == Next(old(View()), Act(card, version, action))
      ensures answer.Refused? ==> cards == old(cards) && tasks == old(tasks)
    {
      if action.OtherAction? {
        return Refused(InvalidArgument);
      }
      if card !in cards {
        return Refused(NotFound);
      }
      var row := cards[card];
      if row.version != version {
        return Refused(StaleCard);
      }
      if !row.status.Delivered? {
        return Refused(InvalidState);
      }
      if action.Undo? {
        if row.task !in tasks {
          return Refused(NotFound);
        }
        if tasks[row.task].version != row.recordedVersion || tasks[row.task].status.Open? {
          return Refused(UndoConflict);
        }
        tasks := tasks[row.task := Task(Open, tasks[row.task].version + 1)];
      }
      cards := cards[card := row.(status := if action.Keep? then KeptByReader else Undone, version := version + 1)];
      answer := Applied(card, version + 1);
    }
  }

  lemma LeasedExpires(c: Card, now: Instant, leaseSeconds: int, token: Token, consumer: string)
    ensures Leased(c, now, leaseSeconds, token, consumer).expiresAt.Some?
  {
  }
}

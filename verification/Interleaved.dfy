/** Importers that run at the same time. They hold a shared lock on the ledger, so
    it does not change under any of them, but their page transactions may come in
    any order; an importer that dies takes no further turn. */
module Interleaved {
  import opened InboxTables
  import opened InboxRuns
  import opened Outbox
  import opened Options

  /** One importer: the ledger it read, the pages it is through with, and how it
      ended. */
  datatype Importer = Importer(ledger: seq<Page>, done: nat, ending: Option<Ending>)

  datatype Shared = Shared(tables: Tables, importers: seq<Importer>)

  datatype Move = Start(ledger: seq<Page>) | Go(i: nat)

  /** An importer reads its ledger and the cursor. */
  function Started(w: Shared, ledger: seq<Page>, s: Stream): Shared {
    w.(importers := w.importers + [Importer(ledger, 0, if Behind(w.tables, ledger, s) then Some(LedgerBehind) else None)])
  }

  /** Importer `i` imports its next page, or returns. */
  function Gone(up: Upgrading, w: Shared, i: nat): Shared
    requires i < |w.importers| && w.importers[i].done <= |w.importers[i].ledger|
  {
    var im := w.importers[i];
    if im.ending.Some? then w
    else if im.done == |im.ledger| then w.(importers := w.importers[i := im.(ending := Some(Returned))])
    else
      var (tables, result) := ImportFeed(up, w.tables, im.ledger[im.done]);
      if result.Accepted() then Shared(tables, w.importers[i := im.(done := im.done + 1)])
      else Shared(tables, w.importers[i := im.(ending := Some(StoppedAt(im.done)))])
  }

  function Moved(up: Upgrading, w: Shared, move: Move, s: Stream): Shared {
    match move
    case Start(ledger) => Started(w, ledger, s)
    case Go(i) =>
      if i < |w.importers| && w.importers[i].done <= |w.importers[i].ledger| then Gone(up, w, i) else w
  }

  function After(up: Upgrading, t: Tables, moves: seq<Move>, s: Stream): Shared {
    if moves == [] then Shared(t, [])
    else Moved(up, After(up, t, moves[..|moves| - 1], s), moves[|moves| - 1], s)
  }

  /** Every importer reads the ledger as it has grown so far. */
  ghost predicate ReadPrefixes(moves: seq<Move>, ledger: seq<Page>) {
    forall move | move in moves && move.Start? :: move.ledger <= ledger
  }

  /** An importer stands on the ledger's own course, not ahead of the tables. */
  ghost predicate OnCourse(up: Upgrading, t: Tables, im: Importer, ledger: seq<Page>, s: Stream, m: nat)
    requires m <= |ledger|
  {
    && im.ledger <= ledger && im.done <= |im.ledger|
    && (im.ending == Some(LedgerBehind) || im.done <= m)
    && (im.ending.None? || im.ending == Some(Returned) ==> Import(up, t, ledger[..im.done]).refused.None?)
    && (im.ending == Some(Returned) ==> im.done == |im.ledger|)
    && (im.ending.Some? && im.ending.value.StoppedAt? ==>
          && im.ending.value.page == im.done < |im.ledger| && im.done < m
          && Import(up, t, ledger[..im.done + 1]).refused == Some(im.done))
    && (im.ledger == ledger ==> (im.ending == Some(LedgerBehind) <==> Behind(t, ledger, s)))
    && (Behind(t, ledger, s) ==> im.ending == Some(LedgerBehind))
  }

  /** The tables are where one importer alone would be after `m` pages. */
  ghost predicate Together(up: Upgrading, t: Tables, w: Shared, ledger: seq<Page>, s: Stream, m: nat) {
    && m <= |ledger| && w.tables == Import(up, t, ledger[..m]).tables
    && (Behind(t, ledger, s) ==> m == 0)
    && forall i | 0 <= i < |w.importers| :: OnCourse(up, t, w.importers[i], ledger, s, m)
  }

  lemma StayOnCourse(up: Upgrading, t: Tables, im: Importer, ledger: seq<Page>, s: Stream, m: nat, n: nat)
    requires m <= n <= |ledger| && OnCourse(up, t, im, ledger, s, m)
    ensures OnCourse(up, t, im, ledger, s, n)
  {
  }

  lemma StartKeepsTogether(up: Upgrading, t: Tables, w: Shared, l: seq<Page>, ledger: seq<Page>, s: Stream, m: nat)
    requires Inv(t) && Chain(ledger, s) && Together(up, t, w, ledger, s, m) && l <= ledger
    ensures Together(up, t, Started(w, l, s), ledger, s, m)
  {
    hide Inv, Import;
    ChainPrefix(ledger, s, m);
    ImportMovesCursor(up, t, ledger[..m], s);
    EndsGrow(ledger, s, m);
    assert l == ledger[..|l|];
    EndsGrow(ledger, s, |l|);
    NothingImported(up, t);
    assert ledger[..0] == [];
    var v := Started(w, l, s);
    forall i | 0 <= i < |v.importers| ensures OnCourse(up, t, v.importers[i], ledger, s, m) {
      if i < |w.importers| {
        assert v.importers[i] == w.importers[i];
      }
    }
  }

  /** The next page of an importer, seen from the tables: behind them it repeats
      what happened, at them it moves them on. */
  lemma NextPage(up: Upgrading, t: Tables, ledger: seq<Page>, s: Stream, k: nat, m: nat) returns (n: nat)
    requires Inv(t) && Chain(ledger, s) && EmptyPagesTrail(ledger) && k <= m <= |ledger| && k < |ledger|
    requires Import(up, t, ledger[..k]).refused.None?
    ensures m <= n <= |ledger| && k < n
    ensures var (tables, result) := ImportFeed(up, Import(up, t, ledger[..m]).tables, ledger[k]);
      && tables == Import(up, t, ledger[..n]).tables
      && (result.Accepted() ==> Import(up, t, ledger[..k + 1]).refused.None?)
      && (!result.Accepted() ==> Import(up, t, ledger[..k + 1]).refused == Some(k))
  {
    hide Inv, Import, ImportFeed, Chain, EmptyPagesTrail;
    n := if k == m then m + 1 else m;
    ImportOfLonger(up, t, ledger, k);
    if k < m {
      if Import(up, t, ledger[..k + 1]).refused.None? {
        AcceptedPageRepeats(up, t, ledger, s, k, m);
      } else {
        StoppedStays(up, t, ledger, k + 1, m);
        RefusalKeepsTables(up, Import(up, t, ledger[..k]).tables, ledger[k]);
      }
    }
  }

  lemma GoKeepsTogether(up: Upgrading, t: Tables, w: Shared, i: nat, ledger: seq<Page>, s: Stream, m: nat)
    returns (n: nat)
    requires Inv(t) && Chain(ledger, s) && EmptyPagesTrail(ledger) && Together(up, t, w, ledger, s, m)
    requires i < |w.importers| && w.importers[i].done <= |w.importers[i].ledger|
    ensures m <= n && Together(up, t, Gone(up, w, i), ledger, s, n)
  {
    hide Inv, Import, ImportFeed, Chain, EmptyPagesTrail, Behind;
    var im, v := w.importers[i], Gone(up, w, i);
    assert OnCourse(up, t, im, ledger, s, m);
    n := m;
    if im.ending.None? && im.done < |im.ledger| {
      assert im.ledger[im.done] == ledger[im.done];
      n := NextPage(up, t, ledger, s, im.done, m);
    }
    forall j | 0 <= j < |v.importers| ensures OnCourse(up, t, v.importers[j], ledger, s, n) {
      assert OnCourse(up, t, w.importers[j], ledger, s, m);
      StayOnCourse(up, t, w.importers[j], ledger, s, m, n);
    }
  }

  lemma {:induction false} ImportersStayTogether(
      up: Upgrading, t: Tables, moves: seq<Move>, ledger: seq<Page>, s: Stream) returns (m: nat)
    requires Inv(t) && Chain(ledger, s) && EmptyPagesTrail(ledger) && ReadPrefixes(moves, ledger)
    ensures Together(up, t, After(up, t, moves, s), ledger, s, m)
    decreases |moves|
  {
    hide Inv, Chain, EmptyPagesTrail, Together, Started, Gone;
    if moves == [] {
      m := 0;
      NoneIsTogether(up, t, ledger, s);
    } else {
      var n := |moves| - 1;
      m := ImportersStayTogether(up, t, moves[..n], ledger, s);
      var w := After(up, t, moves[..n], s);
      match moves[n]
      case Start(l) =>
        assert moves[n] in moves;
        StartKeepsTogether(up, t, w, l, ledger, s, m);
      case Go(i) =>
        if i < |w.importers| && w.importers[i].done <= |w.importers[i].ledger| {
          m := GoKeepsTogether(up, t, w, i, ledger, s, m);
        }
    }
  }

  lemma NoneIsTogether(up: Upgrading, t: Tables, ledger: seq<Page>, s: Stream)
    ensures Together(up, t, Shared(t, []), ledger, s, 0)
  {
    NothingImported(up, t);
    assert ledger[..0] == [];
  }

  /** However importers interleave page by page, die and start while the ledger
      grows: one that ends on the whole ledger leaves the tables, and ends, as if
      it had been alone. */
  lemma InterleavedImportsAgree(up: Upgrading, t: Tables, moves: seq<Move>, ledger: seq<Page>, s: Stream, i: nat)
    requires Inv(t) && Chain(ledger, s) && EmptyPagesTrail(ledger) && ReadPrefixes(moves, ledger)
    requires var w := After(up, t, moves, s);
      i < |w.importers| && w.importers[i].ledger == ledger && w.importers[i].ending.Some?
    ensures var w := After(up, t, moves, s);
      (w.tables, w.importers[i].ending.value) == ImportOutbox(up, t, ledger, s)
  {
    hide Inv, Chain, EmptyPagesTrail, After, Import;
    var m := ImportersStayTogether(up, t, moves, ledger, s);
    var w := After(up, t, moves, s);
    var im := w.importers[i];
    assert OnCourse(up, t, im, ledger, s, m);
    assert ledger[..|ledger|] == ledger && ledger[..0] == [];
    NothingImported(up, t);
    if im.ending.value.StoppedAt? {
      StoppedStays(up, t, ledger, im.done + 1, m);
      StoppedStays(up, t, ledger, im.done + 1, |ledger|);
    }
  }
}

/** Bounding a forge thread: what the truncation loop keeps, what it cuts and in
    what order, on values. `ThreadBounder` runs the same loop on objects. */
module ForgeThread {
  import opened ThreadText
  import opened Options

  const MAX_THREAD_CHARS := 30_000
  const MAX_COMMENTS := 100

  /** The text "[truncated]". */
  const TRUNCATED: Text := [0x5B, 0x74, 0x72, 0x75, 0x6E, 0x63, 0x61, 0x74, 0x65, 0x64, 0x5D]

  function Count(t: Thread): nat {
    |t.comments| + |t.reviews|
  }

  /** Entry `k` of the comments followed by the reviews. */
  function At(t: Thread, k: nat): Entry
    requires k < Count(t)
  {
    if k < |t.comments| then t.comments[k] else t.reviews[k - |t.comments|]
  }

  function Put(t: Thread, k: nat, e: Entry): Thread
    requires k < Count(t)
  {
    if k < |t.comments| then t.(comments := t.comments[k := e])
    else t.(reviews := t.reviews[k - |t.comments| := e])
  }

  predicate TooLong(t: Thread) {
    Size(t) > MAX_THREAD_CHARS
  }

  predicate Candidate(e: Entry) {
    e.body != [] && e.body != TRUNCATED
  }

  /** The candidate picked among the first `n` entries: the first of the longest. */
  function Longest(t: Thread, n: nat): (r: Option<nat>)
    requires n <= Count(t)
    ensures r.Some? ==> r.value < n
  {
    if n == 0 then None
    else
      var best := Longest(t, n - 1);
      if Candidate(At(t, n - 1)) && (best.None? || |At(t, n - 1).body| > |At(t, best.value).body|) then Some(n - 1)
      else best
  }

  function Kept(body: Text, excess: nat): nat {
    if |body| > excess + |TRUNCATED| then |body| - excess - |TRUNCATED| else 0
  }

  function Cut(body: Text, excess: nat): Text {
    body[..Kept(body, excess)] + TRUNCATED
  }

  /** One turn of the loop. */
  function Shrink(t: Thread): Thread
    requires TooLong(t)
  {
    var best := Longest(t, Count(t));
    if best.Some? then
      var e := At(t, best.value);
      Put(t, best.value, e.(body := Cut(e.body, Size(t) - MAX_THREAD_CHARS)))
    else if t.comments != [] then t.(comments := t.comments[..|t.comments| - 1])
    else if t.reviews != [] then t.(reviews := t.reviews[..|t.reviews| - 1])
    else t
  }

  function Candidates(t: Thread, n: nat): nat
    requires n <= Count(t)
  {
    if n == 0 then 0 else Candidates(t, n - 1) + (if Candidate(At(t, n - 1)) then 1 else 0)
  }

  /** Falls with every turn, though the size may rise: entries, bodies that can
      still be cut, and one last turn for a body that is kept in part. */
  function Measure(t: Thread): nat {
    Count(t) + Candidates(t, Count(t)) + (if TooLong(t) then 1 else 0)
  }

  function Bounded(t: Thread): (b: Thread)
    ensures Size(b) <= 30_000
    decreases Measure(t)
  {
    if !TooLong(t) then t
    else
      ShrinkFalls(t);
      Bounded(Shrink(t))
  }

  // ----- one turn -----

  lemma {:induction false} LongestIsFirstLongest(t: Thread, n: nat)
    requires n <= Count(t)
    ensures match Longest(t, n)
            case None => forall k | 0 <= k < n :: !Candidate(At(t, k))
            case Some(i) =>
              && Candidate(At(t, i))
              && (forall k | 0 <= k < n && Candidate(At(t, k)) :: |At(t, k).body| <= |At(t, i).body|)
              && (forall k | 0 <= k < i && Candidate(At(t, k)) :: |At(t, k).body| < |At(t, i).body|)
  {
    if n > 0 {
      LongestIsFirstLongest(t, n - 1);
    }
  }

  lemma PutAt(t: Thread, i: nat, e: Entry)
    requires i < Count(t)
    ensures Count(Put(t, i, e)) == Count(t)
    ensures forall k | 0 <= k < Count(t) :: At(Put(t, i, e), k) == if k == i then e else At(t, k)
  {
  }

  /** Writing a body changes the size by the change in its escaped length. */
  lemma PutSize(t: Thread, i: nat, body: Text)
    requires i < Count(t)
    ensures Size(Put(t, i, At(t, i).(body := body))) - Size(t) == |Escaped(body)| - |Escaped(At(t, i).body)|
  {
    hide RenderEntry, Escaped;
    EntryLength(At(t, i), body);
    var e := At(t, i).(body := body);
    if i < |t.comments| {
      ListLength(t.comments, i, e);
    } else {
      ListLength(t.reviews, i - |t.comments|, e);
    }
  }

  lemma TruncatedIsPlain()
    ensures |Escaped(TRUNCATED)| == |TRUNCATED| == 11
  {
    assert Plain(TRUNCATED);
    EscapedGrows(TRUNCATED);
  }

  /** A body kept in part is cut far enough at once. */
  lemma PartCutFits(t: Thread, i: nat)
    requires TooLong(t) && Longest(t, Count(t)) == Some(i)
    ensures var e := At(t, i); Kept(e.body, Size(t) - MAX_THREAD_CHARS) > 0 ==> !TooLong(Shrink(t))
  {
    hide Size, Escaped, Longest;
    var e := At(t, i);
    var excess := Size(t) - MAX_THREAD_CHARS;
    var keep := Kept(e.body, excess);
    if keep > 0 {
      assert e.body == e.body[..keep] + e.body[keep..];
      EscapedConcat(e.body[..keep], e.body[keep..]);
      EscapedConcat(e.body[..keep], TRUNCATED);
      EscapedGrows(e.body[keep..]);
      TruncatedIsPlain();
      PutSize(t, i, Cut(e.body, excess));
    }
  }

  lemma {:induction false} FewerCandidates(t: Thread, i: nat, e: Entry, n: nat)
    requires i < Count(t) && n <= Count(t) && Candidate(At(t, i)) && !Candidate(e)
    ensures Count(Put(t, i, e)) == Count(t)
    ensures Candidates(Put(t, i, e), n) == Candidates(t, n) - (if i < n then 1 else 0)
  {
    PutAt(t, i, e);
    if n > 0 {
      FewerCandidates(t, i, e, n - 1);
    }
  }

  lemma {:induction false} SameCandidates(t: Thread, i: nat, e: Entry, n: nat)
    requires i < Count(t) && n <= Count(t) && Candidate(At(t, i)) && Candidate(e)
    ensures Count(Put(t, i, e)) == Count(t)
    ensures Candidates(Put(t, i, e), n) == Candidates(t, n)
  {
    PutAt(t, i, e);
    if n > 0 {
      SameCandidates(t, i, e, n - 1);
    }
  }

  lemma {:induction false} NoCandidates(t: Thread, n: nat)
    requires n <= Count(t) && forall k | 0 <= k < n :: !Candidate(At(t, k))
    ensures Candidates(t, n) == 0
  {
    if n > 0 {
      NoCandidates(t, n - 1);
    }
  }

  /** Nothing to cut or drop is never too long. */
  lemma SomethingLeft(t: Thread)
    requires TooLong(t)
    ensures Count(t) > 0
  {
    if Count(t) == 0 {
      EmptyThreadSize(t);
    }
  }

  /** Without a candidate the last comment goes, or the last review. */
  lemma PopFalls(t: Thread)
    requires TooLong(t) && Longest(t, Count(t)).None?
    ensures Measure(Shrink(t)) < Measure(t)
    ensures forall k | 0 <= k < Count(Shrink(t)) :: !Candidate(At(Shrink(t), k))
  {
    hide Size, Longest, Candidates;
    LongestIsFirstLongest(t, Count(t));
    SomethingLeft(t);
    var s := Shrink(t);
    forall k | 0 <= k < Count(s) ensures !Candidate(At(s, k)) {
      assert At(s, k) == At(t, if t.comments == [] || k < |s.comments| then k else k + 1);
    }
    NoCandidates(t, Count(t));
    NoCandidates(s, Count(s));
  }

  lemma ShrinkFalls(t: Thread)
    requires TooLong(t)
    ensures Measure(Shrink(t)) < Measure(t)
  {
    hide Size, Longest, Candidates;
    var best := Longest(t, Count(t));
    LongestIsFirstLongest(t, Count(t));
    if best.None? {
      PopFalls(t);
    } else {
      var i := best.value;
      var e := At(t, i);
      var body := Cut(e.body, Size(t) - MAX_THREAD_CHARS);
      if Kept(e.body, Size(t) - MAX_THREAD_CHARS) > 0 {
        PartCutFits(t, i);
        SameCandidates(t, i, e.(body := body), Count(t));
      } else {
        assert body == TRUNCATED;
        FewerCandidates(t, i, e.(body := body), Count(t));
      }
    }
  }

  /** A turn that cuts makes the text longer exactly when the body it picks takes
      fewer characters than the marker that replaces it. */
  lemma CutLengthensIff(t: Thread, i: nat)
    requires TooLong(t) && Longest(t, Count(t)) == Some(i)
    ensures Size(Shrink(t)) > Size(t) <==> |Escaped(At(t, i).body)| < 11
  {
    hide Size, Escaped, Longest;
    var e := At(t, i);
    var excess := Size(t) - MAX_THREAD_CHARS;
    PutSize(t, i, Cut(e.body, excess));
    TruncatedIsPlain();
    EscapedGrows(e.body);
    if Kept(e.body, excess) > 0 {
      PartCutFits(t, i);
    } else {
      assert Cut(e.body, excess) == TRUNCATED;
    }
  }

  // ----- the whole loop -----

  /** Its body is cut: a proper start of it may be left, and the marker follows. */
  predicate IsCut(e: Entry, now: Entry) {
    && now == e.(body := now.body) && Candidate(e)
    && |now.body| >= |TRUNCATED| && now.body[|now.body| - |TRUNCATED|..] == TRUNCATED
    && |now.body| - |TRUNCATED| < |e.body| && now.body[..|now.body| - |TRUNCATED|] <= e.body
  }

  predicate KeptInPart(e: Entry, now: Entry) {
    now != e && now.body != TRUNCATED
  }

  /** No entry is dropped; bodies are cut, longest first and earlier ones first
      among equals, and at most one is kept in part. */
  ghost predicate CutsOnly(t: Thread, b: Thread) {
    && |b.comments| == |t.comments| && |b.reviews| == |t.reviews|
    && (forall k | 0 <= k < Count(t) :: At(b, k) == At(t, k) || IsCut(At(t, k), At(b, k)))
    && (forall j, k | 0 <= j < Count(t) && 0 <= k < Count(t) ::
          KeptInPart(At(t, j), At(b, j)) && KeptInPart(At(t, k), At(b, k)) ==> j == k)
    && (forall j, k | 0 <= j < Count(t) && 0 <= k < Count(t) ::
          At(b, j) == At(t, j) && Candidate(At(t, j)) && At(b, k) != At(t, k) ==>
            |At(t, j).body| < |At(t, k).body| || (|At(t, j).body| == |At(t, k).body| && k < j))
  }

  function Gone(e: Entry): Entry {
    if Candidate(e) then e.(body := TRUNCATED) else e
  }

  /** Entries are dropped: then every body is gone, entries go from the end, and
      no review goes while a comment is left. */
  ghost predicate Drops(t: Thread, b: Thread) {
    && Count(b) < Count(t)
    && |b.comments| <= |t.comments| && (forall k | 0 <= k < |b.comments| :: b.comments[k] == Gone(t.comments[k]))
    && |b.reviews| <= |t.reviews| && (forall k | 0 <= k < |b.reviews| :: b.reviews[k] == Gone(t.reviews[k]))
    && (|b.reviews| < |t.reviews| ==> b.comments == [])
  }

  /** One turn that cuts, followed by cuts only. */
  lemma CutThenCuts(t: Thread, i: nat, b: Thread)
    requires TooLong(t) && Longest(t, Count(t)) == Some(i)
    requires CutsOnly(Shrink(t), b)
    requires Kept(At(t, i).body, Size(t) - MAX_THREAD_CHARS) > 0 ==> b == Shrink(t)
    ensures CutsOnly(t, b)
  {
    hide Size, Longest;
    LongestIsFirstLongest(t, Count(t));
    var e, s := At(t, i), Shrink(t);
    var cut := e.(body := Cut(e.body, Size(t) - MAX_THREAD_CHARS));
    PutAt(t, i, cut);
    assert IsCut(e, cut);
    if Kept(e.body, Size(t) - MAX_THREAD_CHARS) == 0 {
      assert cut.body == TRUNCATED;
      assert !IsCut(At(s, i), At(b, i));
    }
    assert At(b, i) == cut;
  }

  lemma CutThenDrops(t: Thread, i: nat, b: Thread)
    requires TooLong(t) && Longest(t, Count(t)) == Some(i)
    requires Drops(Shrink(t), b) && Kept(At(t, i).body, Size(t) - MAX_THREAD_CHARS) == 0
    ensures Drops(t, b)
  {
    hide Size, Longest;
    LongestIsFirstLongest(t, Count(t));
    var e, s := At(t, i), Shrink(t);
    assert Cut(e.body, Size(t) - MAX_THREAD_CHARS) == TRUNCATED;
    forall k | 0 <= k < |t.comments| ensures Gone(s.comments[k]) == Gone(t.comments[k]) {
    }
    forall k | 0 <= k < |t.reviews| ensures Gone(s.reviews[k]) == Gone(t.reviews[k]) {
    }
  }

  lemma NothingToCut(t: Thread, b: Thread)
    requires CutsOnly(t, b) && forall k | 0 <= k < Count(t) :: !Candidate(At(t, k))
    ensures b == t
  {
    forall k | 0 <= k < Count(t) ensures At(b, k) == At(t, k) {
    }
    forall k | 0 <= k < |t.comments| ensures b.comments[k] == t.comments[k] {
      assert At(b, k) == At(t, k);
    }
    forall k | 0 <= k < |t.reviews| ensures b.reviews[k] == t.reviews[k] {
      assert At(b, k + |t.comments|) == At(t, k + |t.comments|);
    }
  }

  /** A turn that drops: nothing is left to cut, before it and after. */
  lemma DropThen(t: Thread, b: Thread)
    requires TooLong(t) && Longest(t, Count(t)).None?
    requires CutsOnly(Shrink(t), b) || Drops(Shrink(t), b)
    ensures Drops(t, b)
  {
    hide Size, Longest;
    LongestIsFirstLongest(t, Count(t));
    PopFalls(t);
    SomethingLeft(t);
    var s := Shrink(t);
    if CutsOnly(s, b) {
      NothingToCut(s, b);
    }
    forall k | 0 <= k < |t.comments| ensures Gone(t.comments[k]) == t.comments[k] {
      assert At(t, k) == t.comments[k];
    }
    forall k | 0 <= k < |t.reviews| ensures Gone(t.reviews[k]) == t.reviews[k] {
      assert At(t, k + |t.comments|) == t.reviews[k];
    }
  }

  /** What the loop does to any thread. */
  lemma {:induction false} BoundedCutsOrDrops(t: Thread)
    ensures CutsOnly(t, Bounded(t)) || Drops(t, Bounded(t))
    decreases Measure(t)
  {
    hide Size, Longest, CutsOnly, Drops, Measure;
    if !TooLong(t) {
      CutsNothing(t);
    } else {
      var s := Shrink(t);
      ShrinkFalls(t);
      BoundedCutsOrDrops(s);
      match Longest(t, Count(t))
      case None => DropThen(t, Bounded(t));
      case Some(i) =>
        PartCutFits(t, i);
        if Kept(At(t, i).body, Size(t) - MAX_THREAD_CHARS) > 0 {
          CutsNothing(s);
          CutThenCuts(t, i, s);
        } else if CutsOnly(s, Bounded(t)) {
          CutThenCuts(t, i, Bounded(t));
        } else {
          CutThenDrops(t, i, Bounded(t));
        }
    }
  }

  lemma CutsNothing(t: Thread)
    ensures CutsOnly(t, t)
  {
  }

  /** The thread with the entry that went last put back. */
  function OneBack(t: Thread, b: Thread): Thread
    requires |b.comments| <= |t.comments| && |b.reviews| <= |t.reviews| && Count(b) < Count(t)
  {
    if |b.reviews| < |t.reviews| then b.(reviews := b.reviews + [Gone(t.reviews[|b.reviews|])])
    else b.(comments := b.comments + [Gone(t.comments[|b.comments|])])
  }

  lemma PopPutBack(t: Thread)
    requires TooLong(t) && Longest(t, Count(t)).None?
    ensures Count(Shrink(t)) < Count(t) && OneBack(t, Shrink(t)) == t
  {
    hide Size, Longest;
    LongestIsFirstLongest(t, Count(t));
    SomethingLeft(t);
    assert !Candidate(At(t, Count(t) - 1));
    assert t.comments != [] ==> At(t, |t.comments| - 1) == t.comments[|t.comments| - 1];
  }

  /** No more entries are dropped than the limit asks for. */
  lemma {:induction false} DropsNoMoreThanNeeded(t: Thread)
    ensures Drops(t, Bounded(t)) ==> TooLong(OneBack(t, Bounded(t)))
    decreases Measure(t)
  {
    hide Size, Longest, Measure;
    if TooLong(t) && Drops(t, Bounded(t)) {
      var s, b := Shrink(t), Bounded(t);
      ShrinkFalls(t);
      LongestIsFirstLongest(t, Count(t));
      BoundedCutsOrDrops(s);
      DropsNoMoreThanNeeded(s);
      match Longest(t, Count(t))
      case Some(i) =>
        PutAt(t, i, At(s, i));
        PartCutFits(t, i);
        assert Count(b) < Count(s) && Drops(s, b);
        assert OneBack(t, b) == OneBack(s, b);
      case None =>
        PopFalls(t);
        PopPutBack(t);
        if CutsOnly(s, b) {
          NothingToCut(s, b);
        } else {
          DropThen(t, b);
          assert OneBack(t, b) == OneBack(s, b);
        }
    }
  }

  /** Nothing was cut or dropped exactly when the thread was short enough. */
  lemma BoundedKeepsAllIff(t: Thread)
    ensures Bounded(t) == t <==> Size(t) <= 30_000
  {
  }

  /** The text can get longer on the way: one comment with a one-letter body and
      a long author. */
  lemma ATurnMayLengthen() returns (t: Thread)
    ensures TooLong(t) && Size(Shrink(t)) > Size(t)
  {
    var author := seq(MAX_THREAD_CHARS, _ => 0x61);
    t := Thread([Entry(author, [0x61], [], None)], []);
    LongAuthor(t);
    assert At(t, 0) == t.comments[0];
    assert Longest(t, 0).None? && Longest(t, 1) == Some(0) && Count(t) == 1;
    EscapedGrows([0x61]);
    assert Plain([0x61]);
    CutLengthensIff(t, 0);
  }

  lemma LongAuthor(t: Thread)
    requires |t.comments| == 1 && |t.comments[0].author| >= MAX_THREAD_CHARS
    ensures TooLong(t)
  {
    hide RenderEntry;
    EscapedGrows(t.comments[0].author);
    EntryLength(t.comments[0], []);
  }

  // ----- how much of a body survives -----

  /** What a turn leaves of the body it picks: with more than `excess + 11` characters
      it loses exactly `excess`, the marker included, and otherwise all of it goes;
      nothing else changes. */
  lemma CutLeaves(t: Thread, i: nat)
    requires TooLong(t) && Longest(t, Count(t)) == Some(i)
    ensures Count(Shrink(t)) == Count(t)
    ensures var e, now := At(t, i), At(Shrink(t), i);
      var excess := Size(t) - 30_000;
      && now == e.(body := now.body)
      && (if |e.body| > excess + 11 then
            && |now.body| == |e.body| - excess && now.body[..|now.body| - 11] == e.body[..|now.body| - 11]
            && now.body[|now.body| - 11..] == TRUNCATED
          else now.body == TRUNCATED)
    ensures forall k | 0 <= k < Count(t) && k != i :: At(Shrink(t), k) == At(t, k)
  {
    hide Size, Longest;
    var e := At(t, i);
    PutAt(t, i, e.(body := Cut(e.body, Size(t) - MAX_THREAD_CHARS)));
  }

  /** A turn that keeps part of a plain body uses the whole limit. */
  lemma PlainCutFills(t: Thread, i: nat)
    requires TooLong(t) && Longest(t, Count(t)) == Some(i)
    requires Plain(At(t, i).body) && |At(t, i).body| > Size(t) - 30_000 + 11
    ensures Size(Shrink(t)) == 30_000
  {
    hide Size, Longest, Escaped;
    var e := At(t, i);
    var cut := Cut(e.body, Size(t) - MAX_THREAD_CHARS);
    PutSize(t, i, cut);
    PlainCut(e.body, Size(t) - MAX_THREAD_CHARS);
    EscapedGrows(cut);
    EscapedGrows(e.body);
  }

  lemma PlainCut(body: Text, excess: nat)
    requires Plain(body) && |body| > excess + 11
    ensures Plain(Cut(body, excess)) && |Cut(body, excess)| == |body| - excess
  {
    var cut := Cut(body, excess);
    forall c | c in cut ensures 0x20 <= c < 0x7F && c != 0x22 && c != 0x5C {
      assert c in body || c in TRUNCATED;
    }
  }

  /** A plain body kept in part is kept as far as the limit allows: the text is then
      of exactly 30,000 characters. */
  lemma {:induction false} KeptInPartFills(t: Thread, k: nat)
    requires k < Count(t) && CutsOnly(t, Bounded(t)) && KeptInPart(At(t, k), At(Bounded(t), k))
    requires Plain(At(t, k).body)
    ensures Size(Bounded(t)) == 30_000
    decreases Measure(t)
  {
    hide Size, Longest, Measure, CutsOnly, Drops, Plain;
    var b := Bounded(t);
    CutsOnlyKeepsCount(t, b);
    if TooLong(t) {
      var s := Shrink(t);
      ShrinkFalls(t);
      BoundedCutsOrDrops(s);
      match Longest(t, Count(t))
      case None =>
        DropThen(t, b);
        assert false;
      case Some(i) =>
        CutLeaves(t, i);
        PartCutFits(t, i);
        if |At(t, i).body| > Size(t) - 30_000 + 11 {
          assert b == s && k == i;
          PlainCutFills(t, i);
        } else {
          CutsOnlyKeepsCount(s, b);
          GoneStaysGone(s, b, i);
          KeptInPartFills(s, k);
        }
    }
  }

  lemma CutsOnlyKeepsCount(t: Thread, b: Thread)
    ensures CutsOnly(t, b) ==> Count(b) == Count(t)
    ensures Drops(t, b) ==> Count(b) < Count(t)
  {
  }

  lemma GoneStaysGone(s: Thread, b: Thread, i: nat)
    requires CutsOnly(s, b) && i < Count(s) && At(s, i).body == TRUNCATED
    ensures At(b, i) == At(s, i)
  {
  }
}

/** The incremental scan of a growing transcript: what each poll looks at, and
    which texts some poll is sure to see. */
module TranscriptScan {
  import opened Options

  type Byte = b: int | 0 <= b < 256
  type Bytes = seq<Byte>

  const EVIDENCE_BYTES := 256 * 1024
  const OVERLAP_BYTES := 1024

  /** How far the transcript was read, and the end of what was read last. */
  datatype Place = Place(offset: nat, overlap: Bytes)

  const START: Place := Place(0, [])

  function ReadStart(p: Place, size: nat): nat
    requires p.offset < size
  {
    if size - p.offset > EVIDENCE_BYTES then size - EVIDENCE_BYTES else p.offset
  }

  function Chunk(p: Place, file: Bytes): Bytes
    requires p.offset < |file|
  {
    file[ReadStart(p, |file|)..]
  }

  /** What a poll searches; `None` when it searches nothing. A file that cannot
      be read is `None`. */
  function Window(p: Place, file: Option<Bytes>): Option<Bytes> {
    if file.None? || |file.value| <= p.offset then None
    else Some(p.overlap + Chunk(p, file.value))
  }

  function Poll(p: Place, file: Option<Bytes>): Place {
    if Window(p, file).None? then p
    else
      var chunk := Chunk(p, file.value);
      Place(|file.value|, if |chunk| >= OVERLAP_BYTES then chunk[|chunk| - OVERLAP_BYTES..] else chunk)
  }

  predicate Found(refusal: Bytes -> bool, p: Place, file: Option<Bytes>) {
    Window(p, file).Some? && refusal(Window(p, file).value)
  }

  predicate OccursAt(bytes: Bytes, i: nat, text: Bytes) {
    i + |text| <= |bytes| && bytes[i..i + |text|] == text
  }

  /** `text` occurs in `bytes`. */
  predicate Contains(bytes: Bytes, text: Bytes) {
    exists i | 0 <= i <= |bytes| :: OccursAt(bytes, i, text)
  }

  /** The place before poll `n`. */
  function After(polls: seq<Option<Bytes>>, n: nat): Place
    requires n <= |polls|
  {
    if n == 0 then START else Poll(After(polls, n - 1), polls[n - 1])
  }

  /** The transcript is appended to and never rewritten. */
  ghost predicate Appends(polls: seq<Option<Bytes>>) {
    forall i, j | 0 <= i <= j < |polls| && polls[i].Some? && polls[j].Some? :: polls[i].value <= polls[j].value
  }

  predicate Unread(p: Place, file: Option<Bytes>, limit: nat) {
    file.Some? ==> |file.value| <= p.offset + limit
  }

  /** At most 256 KiB is appended between two polls. */
  ghost predicate KeepsUp(polls: seq<Option<Bytes>>) {
    forall n | 0 <= n < |polls| :: Unread(After(polls, n), polls[n], EVIDENCE_BYTES)
  }

  /** Poll `n` reads something new. */
  predicate Reads(polls: seq<Option<Bytes>>, n: nat)
    requires n < |polls|
  {
    Window(After(polls, n), polls[n]).Some?
  }

  /** Where the window of poll `n` begins in the file when polling keeps up. */
  function Low(polls: seq<Option<Bytes>>, n: nat): int
    requires n <= |polls|
  {
    After(polls, n).offset - |After(polls, n).overlap|
  }

  /** The overlap is the end of what was read, up to 1024 bytes of the last read. */
  ghost predicate InPlace(p: Place, file: Bytes) {
    && |p.overlap| <= p.offset <= |file| && |p.overlap| <= OVERLAP_BYTES
    && p.overlap == file[p.offset - |p.overlap|..p.offset]
  }

  lemma PollKeepsPlace(p: Place, file: Bytes)
    requires p.offset <= |file|
    ensures p.offset < |file| ==> InPlace(Poll(p, Some(file)), file)
  {
  }

  lemma PlaceInLonger(p: Place, file: Bytes, longer: Bytes)
    requires InPlace(p, file) && file <= longer
    ensures InPlace(p, longer)
  {
    assert longer[p.offset - |p.overlap|..p.offset] == file[p.offset - |p.overlap|..p.offset];
  }

  /** Every place reached is in place in every later transcript. */
  lemma {:induction false} PlacesFit(polls: seq<Option<Bytes>>, n: nat, m: nat)
    requires n <= m < |polls| && Appends(polls) && polls[m].Some?
    ensures InPlace(After(polls, n), polls[m].value)
    decreases n
  {
    hide InPlace, Poll;
    if n == 0 {
      StartFits(polls[m].value);
    } else {
      var p, file := After(polls, n - 1), polls[n - 1];
      PlacesFit(polls, n - 1, m);
      PlaceUnmoved(p, file);
      if Window(p, file).Some? {
        PlacesFit(polls, n - 1, n - 1);
        OffsetInside(p, file.value);
        PollKeepsPlace(p, file.value);
        PlaceInLonger(Poll(p, file), file.value, polls[m].value);
      }
    }
  }

  lemma StartFits(file: Bytes)
    ensures InPlace(START, file)
  {
  }

  lemma PlaceUnmoved(p: Place, file: Option<Bytes>)
    ensures Window(p, file).None? ==> Poll(p, file) == p
  {
  }

  lemma OffsetInside(p: Place, file: Bytes)
    requires InPlace(p, file)
    ensures p.offset <= |file|
  {
  }

  /** When at most 256 KiB is new, the window is one slice of the file, up to its
      end, reaching back to `Low`; otherwise the bytes just after what was read
      last are skipped, and exactly those. */
  lemma WindowIsOneSlice(polls: seq<Option<Bytes>>, n: nat)
    requires n < |polls| && Appends(polls) && Reads(polls, n)
    ensures var p, file := After(polls, n), polls[n].value;
      && 0 <= Low(polls, n) <= p.offset < |file|
      && (|file| - p.offset <= 262_144 ==> Window(p, polls[n]).value == file[Low(polls, n)..])
      && (|file| - p.offset > 262_144 ==>
            Window(p, polls[n]).value == file[Low(polls, n)..p.offset] + file[|file| - 262_144..])
  {
    hide After;
    PlacesFit(polls, n, n);
    var p, file := After(polls, n), polls[n].value;
    assert file[Low(polls, n)..] == file[Low(polls, n)..p.offset] + file[p.offset..];
  }

  /** After a read of `k` bytes the next window reaches back min(1024, k) bytes. */
  lemma NextLow(polls: seq<Option<Bytes>>, n: nat)
    requires n < |polls| && Appends(polls)
    ensures Low(polls, n + 1) >= Low(polls, n)
    ensures Reads(polls, n) ==>
      && After(polls, n + 1).offset == |polls[n].value|
      && var k := |Chunk(After(polls, n), polls[n].value)|;
         |After(polls, n + 1).overlap| == if k < 1_024 then k else 1_024
    ensures Reads(polls, n) ==> Low(polls, n + 1) >= ReadStart(After(polls, n), |polls[n].value|)
    ensures !Reads(polls, n) ==> After(polls, n + 1) == After(polls, n)
  {
    if Reads(polls, n) {
      PlacesFit(polls, n, n);
    }
  }

  lemma {:induction false} LowRises(polls: seq<Option<Bytes>>, n: nat, m: nat)
    requires n <= m <= |polls| && Appends(polls)
    ensures Low(polls, n) <= Low(polls, m)
    decreases m
  {
    hide Low, After;
    if n < m {
      LowRises(polls, n, m - 1);
      NextLow(polls, m - 1);
    }
  }

  /** Where the bytes that poll `n` reads begin. */
  function First(polls: seq<Option<Bytes>>, n: nat): nat
    requires n < |polls| && Reads(polls, n)
  {
    ReadStart(After(polls, n), |polls[n].value|)
  }

  /** Nothing is skipped between what was read before and what poll `n` reads. */
  predicate NothingSkipped(polls: seq<Option<Bytes>>, n: nat)
    requires n < |polls| && Reads(polls, n)
  {
    First(polls, n) == After(polls, n).offset
  }

  /** Poll `n` sees the text that fills `a..b` of the transcript: it lies in what
      the poll reads, or in the overlap, or across them when nothing is skipped. */
  predicate Sees(polls: seq<Option<Bytes>>, n: nat, a: nat, b: nat)
    requires n < |polls|
  {
    Reads(polls, n) && Low(polls, n) <= a < b <= |polls[n].value|
    && (First(polls, n) <= a || b <= After(polls, n).offset || NothingSkipped(polls, n))
  }

  lemma SeenIsInWindow(polls: seq<Option<Bytes>>, n: nat, a: nat, b: nat)
    requires n < |polls| && Appends(polls) && Sees(polls, n, a, b)
    ensures var p, file := After(polls, n), polls[n].value;
      var i := if First(polls, n) <= a then |p.overlap| + a - First(polls, n) else a - Low(polls, n);
      OccursAt(Window(p, polls[n]).value, i, file[a..b])
  {
    hide After, Appends, OccursAt, InPlace, Chunk;
    PlacesFit(polls, n, n);
    SeenAt(After(polls, n), polls[n].value, a, b);
  }

  lemma SeenAt(p: Place, file: Bytes, a: nat, b: nat)
    requires InPlace(p, file) && p.offset < |file| && p.offset - |p.overlap| <= a < b <= |file|
    requires var start := ReadStart(p, |file|); start <= a || b <= p.offset || start == p.offset
    ensures var start := ReadStart(p, |file|);
      var i := if start <= a then |p.overlap| + a - start else a - (p.offset - |p.overlap|);
      OccursAt(Window(p, Some(file)).value, i, file[a..b])
  {
    hide OccursAt;
    var start, low := ReadStart(p, |file|), p.offset - |p.overlap|;
    if start <= a {
      SliceOccurs(file, start, |file|, a, b);
      assert file[start..|file|] == Chunk(p, file);
      OccursBehind(p.overlap, Chunk(p, file), a - start, file[a..b]);
    } else if b <= p.offset {
      SliceOccurs(file, low, p.offset, a, b);
      OccursInFront(p.overlap, Chunk(p, file), a - low, file[a..b]);
    } else {
      SliceOccurs(file, low, |file|, a, b);
      assert p.overlap + Chunk(p, file) == file[low..|file|];
    }
  }

  lemma SliceOccurs(file: Bytes, low: nat, high: nat, a: nat, b: nat)
    requires low <= a <= b <= high <= |file|
    ensures OccursAt(file[low..high], a - low, file[a..b])
  {
    var slice := file[low..high];
    forall i | a - low <= i < b - low ensures slice[i] == file[low + i] {
    }
    assert slice[a - low..b - low] == file[a..b];
  }

  lemma OccursBehind(x: Bytes, y: Bytes, i: nat, text: Bytes)
    requires OccursAt(y, i, text)
    ensures OccursAt(x + y, |x| + i, text)
  {
    assert (x + y)[|x| + i..|x| + i + |text|] == y[i..i + |text|];
  }

  lemma OccursInFront(x: Bytes, y: Bytes, i: nat, text: Bytes)
    requires OccursAt(x, i, text)
    ensures OccursAt(x + y, i, text)
  {
    assert (x + y)[i..i + |text|] == x[i..i + |text|];
  }

  /** The poll at which byte `b - 1` is first read. */
  predicate Completes(polls: seq<Option<Bytes>>, n: nat, b: nat)
    requires n < |polls|
  {
    Reads(polls, n) && After(polls, n).offset < b <= |polls[n].value|
  }

  /** A text is seen by some poll exactly when the poll that reads past its last
      byte reads all of it, or skips nothing and reaches back to its first byte:
      that poll missed nothing which could have been seen at another. */
  lemma TextIsSeenIff(polls: seq<Option<Bytes>>, n: nat, a: nat, b: nat)
    requires n < |polls| && a < b && Appends(polls) && Completes(polls, n, b)
    ensures (exists m | 0 <= m < |polls| :: Sees(polls, m, a, b)) <==>
      First(polls, n) <= a || (NothingSkipped(polls, n) && Low(polls, n) <= a)
  {
    hide After, Low;
    LowIsBehind(polls, n);
    if First(polls, n) <= a || (NothingSkipped(polls, n) && Low(polls, n) <= a) {
      assert Sees(polls, n, a, b);
    }
    forall m | 0 <= m < |polls| && Sees(polls, m, a, b)
      ensures First(polls, n) <= a || (NothingSkipped(polls, n) && Low(polls, n) <= a)
    {
      if m > n {
        LowRises(polls, n + 1, m);
        NextLow(polls, n);
      } else if m < n {
        ReadOnce(polls, m, n);
      }
    }
  }

  lemma LowIsBehind(polls: seq<Option<Bytes>>, n: nat)
    requires n < |polls| && Reads(polls, n)
    ensures Low(polls, n) <= After(polls, n).offset <= First(polls, n)
  {
  }

  lemma {:induction false} ReadOnce(polls: seq<Option<Bytes>>, m: nat, n: nat)
    requires m < n <= |polls| && Appends(polls) && Reads(polls, m)
    ensures After(polls, n).offset >= |polls[m].value|
    decreases n
  {
    hide Low;
    if m + 1 < n {
      ReadOnce(polls, m, n - 1);
    }
  }

  /** In particular a text with at most 1024 bytes in one read and the rest in the
      next, which skips nothing, is seen. */
  lemma TwoReadsAreSeen(polls: seq<Option<Bytes>>, m: nat, n: nat, a: nat, b: nat)
    requires m < n < |polls| && a < b && Appends(polls)
    requires Reads(polls, m) && Completes(polls, n, b) && forall k | m < k < n :: !Reads(polls, k)
    requires First(polls, m) <= a && |polls[m].value| <= a + 1_024 && NothingSkipped(polls, n)
    ensures Sees(polls, n, a, b)
  {
    hide After;
    NextLow(polls, m);
    Idle(polls, m + 1, n);
  }

  lemma {:induction false} Idle(polls: seq<Option<Bytes>>, m: nat, n: nat)
    requires m <= n <= |polls| && forall k | m <= k < n :: !Reads(polls, k)
    ensures After(polls, n) == After(polls, m)
    decreases n
  {
    if m < n {
      Idle(polls, m, n - 1);
      assert !Reads(polls, n - 1);
    }
  }

  /** When the bytes just read follow on the overlap, or there is no overlap, the
      window is the end of the file and holds no text that the file does not. */
  lemma FoundIsReal(p: Place, file: Bytes)
    requires InPlace(p, file) && p.offset < |file|
    requires p.overlap == [] || |file| - p.offset <= 262_144
    ensures var window := Window(p, Some(file)).value;
      && |window| <= |file| && window == file[|file| - |window|..]
      && forall text :: Contains(window, text) ==> Contains(file, text)
  {
    hide Contains, OccursAt;
    var window := Window(p, Some(file)).value;
    assert window == file[|file| - |window|..];
    forall text | Contains(window, text) ensures Contains(file, text) {
      ContainsMore(file, |file| - |window|, text);
    }
  }

  lemma ContainsMore(file: Bytes, low: nat, text: Bytes)
    requires low <= |file| && Contains(file[low..], text)
    ensures Contains(file, text)
  {
    hide OccursAt;
    var i :| 0 <= i <= |file[low..]| && OccursAt(file[low..], i, text);
    assert file[..low] + file[low..] == file;
    OccursBehind(file[..low], file[low..], i, text);
    OccursWithin(file, low + i, text);
  }

  lemma OccursWithin(bytes: Bytes, i: nat, text: Bytes)
    requires OccursAt(bytes, i, text)
    ensures i <= |bytes|
  {
  }

  /** So in every run a poll that skips nothing finds only what is in the file. */
  lemma RunsFindReal(polls: seq<Option<Bytes>>, n: nat, text: Bytes)
    requires n < |polls| && Appends(polls) && Reads(polls, n)
    requires NothingSkipped(polls, n) || After(polls, n).overlap == []
    ensures Contains(Window(After(polls, n), polls[n]).value, text) ==> Contains(polls[n].value, text)
  {
    hide After, Contains;
    PlacesFit(polls, n, n);
    FoundIsReal(After(polls, n), polls[n].value);
  }

  /** From an offset `o` with `k` bytes of overlap, a file of `n` bytes can never
      seem to contain a text that it does not. */
  ghost predicate NeverDeceives(o: nat, k: nat, n: nat)
    requires o < n
  {
    forall p: Place, file, text | p.offset == o && |p.overlap| == k && |file| == n && InPlace(p, file) ::
      Contains(Window(p, Some(file)).value, text) ==> Contains(file, text)
  }

  /** That is so exactly when there is no overlap or nothing is skipped. */
  lemma NeverDeceivesIff(o: nat, k: nat, n: nat)
    requires k <= o < n && k <= 1_024
    ensures NeverDeceives(o, k, n) <==> k == 0 || n - o <= 262_144
  {
    hide Contains, InPlace, Chunk;
    if k == 0 || n - o <= EVIDENCE_BYTES {
      forall p: Place, file, text | p.offset == o && |p.overlap| == k && |file| == n && InPlace(p, file)
        ensures Contains(Window(p, Some(file)).value, text) ==> Contains(file, text)
      {
        FoundIsReal(p, file);
      }
    } else {
      var p, file := GapDeceives(o, k, n);
      assert Contains(Window(p, Some(file)).value, [1, 2]) && !Contains(file, [1, 2]);
    }
  }

  lemma GapDeceives(o: nat, k: nat, n: nat) returns (p: Place, file: Bytes)
    requires 0 < k <= o < n && k <= 1_024 && n - o > 262_144
    ensures p.offset == o && |p.overlap| == k && |file| == n && InPlace(p, file)
    ensures Contains(Window(p, Some(file)).value, [1, 2]) && !Contains(file, [1, 2])
  {
    var at := n - EVIDENCE_BYTES;
    file := seq(n, i => if i == o - 1 then 1 else if i == at then 2 else 0);
    p := Place(o, file[o - k..o]);
    var window := Window(p, Some(file)).value;
    assert window[k - 1] == file[o - 1] && window[k] == file[at];
    assert OccursAt(window, k - 1, [1, 2]);
    forall i: nat ensures !OccursAt(file, i, [1, 2]) {
      if i + 2 <= n {
        assert file[i..i + 2] == [file[i], file[i + 1]];
      }
    }
  }

  /** A text spread over three reads can be missed for good: every poll keeps up,
      the search fails at each, and the bytes 1, 2, 3 are in the transcript. */
  lemma ThreeReadsCanMiss() returns (polls: seq<Option<Bytes>>)
    ensures Appends(polls) && KeepsUp(polls) && |polls| == 3 && polls[2].Some?
    ensures var refusal := (w: Bytes) => Contains(w, [1, 2, 3]);
      refusal(polls[2].value) && forall m | 0 <= m < 3 :: !Found(refusal, After(polls, m), polls[m])
  {
    polls := [Some([1]), Some([1, 2]), Some([1, 2, 3])];
    assert After(polls, 0) == START;
    assert After(polls, 1) == Place(1, [1]);
    assert After(polls, 2) == Place(2, [2]);
    forall n | 0 <= n < |polls| ensures Unread(After(polls, n), polls[n], EVIDENCE_BYTES) {
    }
    assert OccursAt([1, 2, 3], 0, [1, 2, 3]);
    assert Window(START, polls[0]).value == [1];
    assert Window(Place(1, [1]), polls[1]).value == [1, 2];
    assert Window(Place(2, [2]), polls[2]).value == [2, 3];
  }

  /** When polling falls behind, the two sides of the gap are searched as if they
      were joined: a refusal can be found that is nowhere in the transcript. */
  lemma GapsCanDeceive() returns (p: Place, file: Bytes)
    ensures |file| > 1 && InPlace(p, file) && p == After([Some(file[..1])], 1)
    ensures forall i | 0 <= i < |file| - 1 :: !(file[i] == 1 && file[i + 1] == 2)
    ensures Found((w: Bytes) => exists i | 0 <= i < |w| - 1 :: w[i] == 1 && w[i + 1] == 2, p, Some(file))
  {
    var tail: Bytes := seq(EVIDENCE_BYTES - 1, _ => 0);
    file := [1, 0, 2] + tail;
    p := Place(1, [1]);
    assert file[..1] == [1];
    assert After([Some(file[..1])], 0) == START;
    assert Chunk(START, [1]) == [1];
    var w := Window(p, Some(file)).value;
    assert w[0] == 1 && w[1] == 2;
  }
}

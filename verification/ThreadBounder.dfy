/** `_bound_entries` as it runs: a loop that overwrites the bodies of entry
    objects and pops from two lists. */
module ThreadBounder {
  import opened ThreadText
  import opened ForgeThread
  import opened Options

  class Node {
    const author: Text
    const createdAt: Text
    const state: Option<Text>
    var body: Text

    constructor (e: Entry)
      ensures Value() == e
    {
      author, body, createdAt, state := e.author, e.body, e.createdAt, e.state;
    }

    function Value(): Entry
      reads this
    {
      Entry(author, body, createdAt, state)
    }
  }

  function Values(nodes: seq<Node>): seq<Entry>
    reads nodes
  {
    seq(|nodes|, i requires 0 <= i < |nodes| reads nodes => nodes[i].Value())
  }

  function View(comments: seq<Node>, reviews: seq<Node>): Thread
    reads comments, reviews
  {
    Thread(Values(comments), Values(reviews))
  }

  predicate Distinct(nodes: seq<Node>) {
    forall i, j | 0 <= i < j < |nodes| :: nodes[i] != nodes[j]
  }

  function FirstHundred<T>(s: seq<T>): (r: seq<T>)
    ensures r <= s && |r| == if |s| > 100 then 100 else |s|
  {
    if |s| > MAX_COMMENTS then s[..MAX_COMMENTS] else s
  }

  /** The candidate that `max` picks. */
  method PickLongest(comments: seq<Node>, reviews: seq<Node>) returns (best: Option<nat>)
    ensures best == Longest(View(comments, reviews), |comments| + |reviews|)
  {
    ghost var t := View(comments, reviews);
    best := None;
    var length := 0;
    for k := 0 to |comments| + |reviews|
      invariant best == Longest(t, k)
      invariant best.Some? ==> length == |At(t, best.value).body|
    {
      var node := (comments + reviews)[k];
      assert node.Value() == At(t, k);
      if node.body != [] && node.body != TRUNCATED && (best.None? || |node.body| > length) {
        best, length := Some(k), |node.body|;
      }
    }
  }

  /** One body is overwritten; entry objects are not shared. */
  lemma OneWritten(before: Thread, comments: seq<Node>, reviews: seq<Node>, i: nat)
    requires Distinct(comments + reviews) && i < |comments| + |reviews|
    requires |before.comments| == |comments| && |before.reviews| == |reviews|
    requires forall k | 0 <= k < |comments| + |reviews| && k != i :: (comments + reviews)[k].Value() == At(before, k)
    ensures View(comments, reviews) == Put(before, i, (comments + reviews)[i].Value())
  {
    var after := View(comments, reviews);
    forall k | 0 <= k < Count(before) && k != i ensures At(after, k) == At(before, k) {
    }
    forall k | 0 <= k < |comments| && k != i ensures after.comments[k] == before.comments[k] {
      assert At(after, k) == At(before, k);
    }
    forall k | 0 <= k < |reviews| && k + |comments| != i ensures after.reviews[k] == before.reviews[k] {
      assert At(after, k + |comments|) == At(before, k + |comments|);
    }
  }

  /** The loop's body. It never comes to its last branch, which gives up. */
  method Turn(comments: seq<Node>, reviews: seq<Node>)
    returns (keptComments: seq<Node>, keptReviews: seq<Node>, stuck: bool)
    requires Distinct(comments + reviews) && TooLong(View(comments, reviews))
    modifies comments, reviews
    ensures keptComments <= comments && keptReviews <= reviews && !stuck
    ensures View(keptComments, keptReviews) == Shrink(old(View(comments, reviews)))
  {
    hide Size, Longest;
    keptComments, keptReviews, stuck := comments, reviews, false;
    ghost var before := View(comments, reviews);
    SomethingLeft(before);
    var best := PickLongest(comments, reviews);
    if best.Some? {
      var node := (comments + reviews)[best.value];
      assert node.Value() == At(before, best.value);
      var excess := Size(View(comments, reviews)) - MAX_THREAD_CHARS;
      var keep := if |node.body| - excess - |TRUNCATED| > 0 then |node.body| - excess - |TRUNCATED| else 0;
      node.body := node.body[..keep] + TRUNCATED;
      OneWritten(before, comments, reviews, best.value);
    } else if comments != [] {
      keptComments := comments[..|comments| - 1];
      assert Values(keptComments) == before.comments[..|comments| - 1];
    } else if reviews != [] {
      keptReviews := reviews[..|reviews| - 1];
      assert Values(keptReviews) == before.reviews[..|reviews| - 1];
    } else {
      stuck := true;
    }
  }

  method BoundEntries(comments: seq<Node>, reviews: seq<Node>, commentTotal: nat, reviewTotal: nat)
    returns (keptComments: seq<Node>, keptReviews: seq<Node>, truncated: bool)
    requires Distinct(comments + reviews)
    modifies comments, reviews
    ensures keptComments <= comments && keptReviews <= reviews
    ensures var start := Thread(FirstHundred(old(Values(comments))), FirstHundred(old(Values(reviews))));
      && View(keptComments, keptReviews) == Bounded(start)
      && (truncated <==> commentTotal > |start.comments| || reviewTotal > |start.reviews| || TooLong(start))
    ensures !truncated && commentTotal >= |comments| && reviewTotal >= |reviews| ==>
              keptComments == comments && keptReviews == reviews && View(comments, reviews) == old(View(comments, reviews))
  {
    hide Size, TooLong, Bounded, Longest, Measure, Shrink, Values;
    keptComments, keptReviews := FirstHundred(comments), FirstHundred(reviews);
    truncated := commentTotal > |keptComments| || reviewTotal > |keptReviews|;
    ghost var short := truncated;
    ghost var start := View(keptComments, keptReviews);
    FirstHundredValues(comments);
    FirstHundredValues(reviews);
    while TooLong(View(keptComments, keptReviews))
      invariant keptComments <= comments && keptReviews <= reviews
      invariant Bounded(View(keptComments, keptReviews)) == Bounded(start)
      invariant (View(keptComments, keptReviews) == start && truncated == short) || (TooLong(start) && truncated)
      decreases Measure(View(keptComments, keptReviews))
    {
      UnfoldBounded(View(keptComments, keptReviews));
      KeptDistinct(comments, reviews, keptComments, keptReviews);
      var stuck;
      keptComments, keptReviews, stuck := Turn(keptComments, keptReviews);
      if stuck {
        break;
      }
      truncated := true;
    }
    DoneBounded(View(keptComments, keptReviews));
    BoundedKeepsAllIff(start);
    SameLength(keptComments);
    SameLength(keptReviews);
  }

  lemma SameLength(nodes: seq<Node>)
    ensures |Values(nodes)| == |nodes|
  {
  }

  lemma FirstHundredValues(nodes: seq<Node>)
    ensures FirstHundred(nodes) <= nodes
    ensures Values(FirstHundred(nodes)) == FirstHundred(Values(nodes))
    ensures |Values(FirstHundred(nodes))| == |FirstHundred(nodes)|
  {
  }

  lemma KeptDistinct(comments: seq<Node>, reviews: seq<Node>, c: seq<Node>, r: seq<Node>)
    requires Distinct(comments + reviews) && c <= comments && r <= reviews
    ensures Distinct(c + r)
  {
    forall i, j | 0 <= i < j < |c + r| ensures (c + r)[i] != (c + r)[j] {
      var k := if i < |c| then i else i - |c| + |comments|;
      var l := if j < |c| then j else j - |c| + |comments|;
      assert (comments + reviews)[k] == (c + r)[i] && (comments + reviews)[l] == (c + r)[j];
    }
  }

  lemma UnfoldBounded(t: Thread)
    requires TooLong(t)
    ensures Bounded(t) == Bounded(Shrink(t)) && Measure(Shrink(t)) < Measure(t)
  {
    ShrinkFalls(t);
  }

  lemma DoneBounded(t: Thread)
    requires !TooLong(t)
    ensures Bounded(t) == t
  {
  }
}

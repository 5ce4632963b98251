/** Moments that follow each other closely enough: renewals of a lease, or the
    heartbeats of a job. */
module Heartbeats {

  function LastBeat(startedAt: int, beats: seq<int>): int {
    if beats == [] then startedAt else beats[|beats| - 1]
  }

  /** Each beat came at most `most` after the one before it. */
  predicate BeatsWithin(startedAt: int, beats: seq<int>, most: int) {
    forall k | 0 <= k < |beats| :: beats[k] - LastBeat(startedAt, beats[..k]) <= most
  }

  lemma NoBeats(startedAt: int, most: int)
    ensures BeatsWithin(startedAt, [], most) && LastBeat(startedAt, []) == startedAt
  {
  }

  lemma OneMoreBeat(startedAt: int, beats: seq<int>, now: int, most: int)
    requires BeatsWithin(startedAt, beats, most) && now - LastBeat(startedAt, beats) <= most
    ensures BeatsWithin(startedAt, beats + [now], most) && LastBeat(startedAt, beats + [now]) == now
  {
    var longer := beats + [now];
    forall k | 0 <= k < |longer| ensures longer[k] - LastBeat(startedAt, longer[..k]) <= most {
      assert longer[..k] == beats[..k];
    }
  }

  /** Each beat came at least `least` after the one before it. */
  predicate BeatsApart(startedAt: int, beats: seq<int>, least: int) {
    forall k | 0 <= k < |beats| :: beats[k] - LastBeat(startedAt, beats[..k]) >= least
  }

  lemma NoBeatsApart(startedAt: int, least: int)
    ensures BeatsApart(startedAt, [], least) && LastBeat(startedAt, []) == startedAt
  {
  }

  lemma OneBeatApart(startedAt: int, beats: seq<int>, now: int, least: int)
    requires BeatsApart(startedAt, beats, least) && now - LastBeat(startedAt, beats) >= least
    ensures BeatsApart(startedAt, beats + [now], least) && LastBeat(startedAt, beats + [now]) == now
  {
    var longer := beats + [now];
    forall k | 0 <= k < |longer| ensures longer[k] - LastBeat(startedAt, longer[..k]) >= least {
      assert longer[..k] == beats[..k];
    }
  }
}

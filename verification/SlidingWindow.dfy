/**
 One sliding-window counter: a Redis sorted set of request timestamps with a key expiry.
 `Attempt` is what one gate does to it when nothing else runs in between: prune, count, and,
 below the limit, add the timestamp and refresh the expiry.
 */
module SlidingWindow {
  import opened Wrappers

  /** A sorted set and its expiry time, if it has one. A key that does not exist is a set with no scores. */
  datatype Window = Window(scores: seq<nat>, deadline: Option<nat>)

  const EMPTY_WINDOW := Window([], None)

  /** `now.saturating_sub(window)`. */
  function WindowStart(now: nat, window: nat): nat {
    if now <= window then 0 else now - window
  }

  /** The scores Redis still holds at `clock`: an expired key holds none. */
  function Live(w: Window, clock: nat): seq<nat> {
    if w.deadline.Some? && w.deadline.value <= clock then [] else w.scores
  }

  /** ZREMRANGEBYSCORE key 0 limit: both ends of the removed range are inclusive. */
  function Prune(scores: seq<nat>, limit: nat): seq<nat> {
    if scores == [] then []
    else
      var rest := Prune(scores[..|scores| - 1], limit);
      var last := scores[|scores| - 1];
      if last <= limit then rest else rest + [last]
  }

  /** Redis deletes a key whose set becomes empty, and its expiry with it. */
  function Trimmed(w: Window, clock: nat, limit: nat): Window {
    var kept := Prune(Live(w, clock), limit);
    if kept == [] then EMPTY_WINDOW else Window(kept, w.deadline)
  }

  /** The gate as one uninterrupted action: the new set and whether the request is admitted. */
  function Attempt(w: Window, now: nat, window: nat, limit: nat, expiry: nat): (Window, bool) {
    var kept := Trimmed(w, now, WindowStart(now, window));
    if |kept.scores| >= limit then (kept, false)
    else (Window(kept.scores + [now], Some(now + expiry)), true)
  }

  /** How many scores lie in the span `(from, from + window]`. */
  function SpanCount(scores: seq<nat>, from: int, window: nat): (n: nat)
    ensures n <= |scores|
  {
    if scores == [] then 0
    else
      var last := scores[|scores| - 1];
      SpanCount(scores[..|scores| - 1], from, window) + (if from < last <= from + window then 1 else 0)
  }

  lemma SpanCountAppend(scores: seq<nat>, x: nat, from: int, window: nat)
    ensures SpanCount(scores + [x], from, window)
         == SpanCount(scores, from, window) + (if from < x <= from + window then 1 else 0)
  {
    assert (scores + [x])[..|scores|] == scores;
  }

  lemma PruneAppend(scores: seq<nat>, x: nat, limit: nat)
    ensures Prune(scores + [x], limit) == Prune(scores, limit) + (if x <= limit then [] else [x])
  {
    assert (scores + [x])[..|scores|] == scores;
  }

  /** Pruning removes exactly the scores up to the limit. */
  lemma {:induction false} PruneKeeps(scores: seq<nat>, limit: nat)
    ensures forall x :: x in Prune(scores, limit) <==> x in scores && x > limit
    ensures |Prune(scores, limit)| <= |scores|
  {
    if scores == [] {
    } else {
      PruneKeeps(scores[..|scores| - 1], limit);
      assert scores == scores[..|scores| - 1] + [scores[|scores| - 1]];
    }
  }

  /** Pruning at or below the start of a span loses nothing in it. */
  lemma {:induction false} PruneBelowSpan(scores: seq<nat>, limit: nat, from: int, window: nat)
    requires limit <= from
    ensures SpanCount(Prune(scores, limit), from, window) == SpanCount(scores, from, window)
  {
    if scores == [] {
    } else {
      var init, last := scores[..|scores| - 1], scores[|scores| - 1];
      PruneBelowSpan(init, limit, from, window);
      if last > limit {
        SpanCountAppend(Prune(init, limit), last, from, window);
      }
    }
  }

  /** A positive count has a witness. */
  lemma {:induction false} SpanWitness(scores: seq<nat>, from: int, window: nat) returns (x: nat)
    requires SpanCount(scores, from, window) > 0
    ensures x in scores && from < x <= from + window
  {
    var last := scores[|scores| - 1];
    if from < last <= from + window {
      x := last;
    } else {
      x := SpanWitness(scores[..|scores| - 1], from, window);
    }
  }

  /** Pruning twice is pruning at the higher limit. */
  lemma {:induction false} PruneTwice(scores: seq<nat>, low: nat, high: nat)
    requires low <= high
    ensures Prune(Prune(scores, low), high) == Prune(scores, high)
  {
    if scores == [] {
    } else {
      var init, last := scores[..|scores| - 1], scores[|scores| - 1];
      PruneTwice(init, low, high);
      if last > low {
        PruneAppend(Prune(init, low), last, high);
      }
    }
  }

  lemma {:induction false} PruneAll(scores: seq<nat>, limit: nat)
    requires forall i :: 0 <= i < |scores| ==> scores[i] <= limit
    ensures Prune(scores, limit) == []
  {
    if scores == [] {
    } else {
      PruneAll(scores[..|scores| - 1], limit);
    }
  }

  lemma {:induction false} PruneNone(scores: seq<nat>, limit: nat)
    requires forall i :: 0 <= i < |scores| ==> scores[i] > limit
    ensures Prune(scores, limit) == scores
  {
    if scores == [] {
    } else {
      PruneNone(scores[..|scores| - 1], limit);
    }
  }

  /** When no score is 0, a span starting before 0 counts no more than the one starting at 0. */
  lemma {:induction false} SpanFromZero(scores: seq<nat>, from: int, window: nat)
    requires from < 0
    requires forall i :: 0 <= i < |scores| ==> scores[i] >= 1
    ensures SpanCount(scores, from, window) <= SpanCount(scores, 0, window)
  {
    if scores == [] {
    } else {
      SpanFromZero(scores[..|scores| - 1], from, window);
    }
  }
}

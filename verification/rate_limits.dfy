/** The fixed-window limiter for authentication attempts, for one subject. */
module RateLimits {
  import opened Base

  const WINDOW: int := 15 * MINUTE

  datatype Dimension = Employee | Device | Network

  function LimitOf(d: Dimension): nat {
    match d
    case Employee => 10
    case Device => 30
    case Network => 200
  }

  /** The stored row of a subject. */
  datatype Window = Window(startedAt: Instant, hits: nat)

  datatype Decision = Decision(allowed: bool, retryAfter: int)

  function AfterHit(w: Option<Window>, now: Instant): Window {
    if w == None || w.value.startedAt <= now - WINDOW then Window(now, 1)
    else Window(w.value.startedAt, w.value.hits + 1)
  }

  /** Whole seconds, rounded up. */
  function CeilSeconds(us: int): int {
    -((-us) / SECOND)
  }

  function RetryAfter(w: Window, now: Instant): int {
    var s := CeilSeconds(w.startedAt + WINDOW - now);
    if s < 1 then 1 else s
  }

  function Decide(w: Window, limit: nat, now: Instant): Decision {
    if w.hits <= limit then Decision(true, 0) else Decision(false, RetryAfter(w, now))
  }

  class Limiter {
    var rows: map<(Dimension, Uuid), Window>

    constructor ()
      ensures rows == map[]
    {
      rows := map[];
    }

    /** Count a hit and decide, in one upsert; without a limit of the caller's the
        dimension's own applies. */
    method ConsumeLimit(dimension: Dimension, value: Uuid, limit: Option<nat>, now: Instant) returns (d: Decision)
      modifies this
      ensures var subject := (dimension, value);
              var before := if subject in old(rows) then Some(old(rows)[subject]) else None;
              && rows == old(rows)[subject := AfterHit(before, now)]
              && d == Decide(AfterHit(before, now), if limit.Some? then limit.value else LimitOf(dimension), now)
    {
      var subject := (dimension, value);
      var maximum := if limit == None then LimitOf(dimension) else limit.value;
      var row := Window(now, 1);
      if subject in rows {
        row := rows[subject];
        var cutoff := now - WINDOW;
        row := Window(if row.startedAt <= cutoff then now else row.startedAt, if row.startedAt <= cutoff then 1 else row.hits + 1);
      }
      rows := rows[subject := row];
      var allowed := row.hits <= maximum;
      var retry := 0;
      if !allowed {
        var seconds := CeilSeconds(row.startedAt + WINDOW - now);
        retry := if seconds > 1 then seconds else 1;
      }
      return Decision(allowed, retry);
    }
  }

  // ----- Hit sequences -----

  /** The row after the `i`-th of a sequence of hits. */
  function At(hits: seq<Instant>, i: nat): Window
    requires i < |hits|
  {
    AfterHit(if i == 0 then None else Some(At(hits, i - 1)), hits[i])
  }

  predicate Allowed(hits: seq<Instant>, limit: nat, i: nat)
    requires i < |hits|
  {
    Decide(At(hits, i), limit, hits[i]).allowed
  }

  /** How many of the hits lo..hi are allowed. */
  function AllowedIn(hits: seq<Instant>, limit: nat, lo: nat, hi: nat): nat
    requires lo <= hi <= |hits|
  {
    if lo == hi then 0
    else AllowedIn(hits, limit, lo, hi - 1) + if Allowed(hits, limit, hi - 1) then 1 else 0
  }

  ghost predicate Nondecreasing(hits: seq<Instant>) {
    forall i, j :: 0 <= i < j < |hits| ==> hits[i] <= hits[j]
  }

  lemma {:induction false} WindowHoldsItsHit(hits: seq<Instant>, i: nat)
    requires Nondecreasing(hits) && i < |hits|
    ensures hits[i] - WINDOW < At(hits, i).startedAt <= hits[i] && At(hits, i).hits >= 1
  {
    if i > 0 {
      WindowHoldsItsHit(hits, i - 1);
    }
  }

  /** Either the `j`-th hit falls into the window of the `i`-th, or a later window was
      opened in between, at some hit past the end of that window. */
  lemma {:induction false} NextWindow(hits: seq<Instant>, i: nat, j: nat) returns (m: nat)
    requires Nondecreasing(hits) && i <= j < |hits|
    ensures i < m <= j + 1
    ensures forall q :: i <= q < m ==> At(hits, q).startedAt == At(hits, i).startedAt
    ensures m <= j ==> At(hits, m).startedAt == hits[m] >= At(hits, i).startedAt + WINDOW
    decreases j
  {
    if i == j {
      m := j + 1;
    } else {
      m := NextWindow(hits, i, j - 1);
      if m == j && At(hits, j).startedAt == At(hits, i).startedAt {
        m := j + 1;
      }
    }
  }

  /** Within one window at most `limit` hits are allowed. */
  lemma {:induction false} OneWindow(hits: seq<Instant>, limit: nat, lo: nat, hi: nat)
    requires Nondecreasing(hits) && lo < hi <= |hits|
    requires forall q :: lo <= q < hi ==> At(hits, q).startedAt == At(hits, lo).startedAt
    ensures AllowedIn(hits, limit, lo, hi) <= limit
    ensures At(hits, hi - 1).hits == At(hits, lo).hits + (hi - 1 - lo)
    ensures AllowedIn(hits, limit, lo, hi) <= At(hits, hi - 1).hits - At(hits, lo).hits + 1
    decreases hi
  {
    WindowHoldsItsHit(hits, lo);
    if hi - 1 > lo {
      WindowHoldsItsHit(hits, hi - 2);
      WindowHoldsItsHit(hits, hi - 1);
      OneWindow(hits, limit, lo, hi - 1);
      SameWindowCounts(hits, hi - 1);
      if Allowed(hits, limit, hi - 1) {
        assert At(hits, hi - 1).hits <= limit;
      }
    } else {
      assert AllowedIn(hits, limit, lo, lo) == 0;
    }
  }

  lemma SameWindowCounts(hits: seq<Instant>, i: nat)
    requires Nondecreasing(hits) && 0 < i < |hits| && At(hits, i).startedAt == At(hits, i - 1).startedAt
    ensures At(hits, i).hits == At(hits, i - 1).hits + 1
  {
    WindowHoldsItsHit(hits, i - 1);
  }

  lemma {:induction false} AllowedSplits(hits: seq<Instant>, limit: nat, lo: nat, mid: nat, hi: nat)
    requires lo <= mid <= hi <= |hits|
    ensures AllowedIn(hits, limit, lo, hi) == AllowedIn(hits, limit, lo, mid) + AllowedIn(hits, limit, mid, hi)
    decreases hi
  {
    if mid < hi {
      AllowedSplits(hits, limit, lo, mid, hi - 1);
    }
  }

  /** For every nondecreasing sequence of hits, any closed interval of 15 minutes holds at
      most twice the limit of allowed hits. */
  lemma AtMostTwiceTheLimit(hits: seq<Instant>, limit: nat, lo: nat, hi: nat)
    requires Nondecreasing(hits) && lo < hi <= |hits|
    requires hits[hi - 1] - hits[lo] <= WINDOW
    ensures AllowedIn(hits, limit, lo, hi) <= 2 * limit
  {
    WindowHoldsItsHit(hits, lo);
    var m := NextWindow(hits, lo, hi - 1);
    OneWindow(hits, limit, lo, m);
    if m < hi {
      var n := NextWindow(hits, m, hi - 1);
      OneWindow(hits, limit, m, n);
      AllowedSplits(hits, limit, lo, m, n);
      assert n == hi;
    }
  }

  /** Of the hits within 15 minutes of the first one exactly the first ones up to the limit
      are allowed, and the first hit after that opens a window of its own. */
  lemma {:induction false} AllowedUpToTheLimit(hits: seq<Instant>, limit: nat, i: nat)
    requires Nondecreasing(hits) && i < |hits| && hits[i] < hits[0] + 900_000_000
    ensures Allowed(hits, limit, i) <==> i < limit
    ensures At(hits, i) == Window(hits[0], i + 1)
    ensures i + 1 < |hits| && hits[i + 1] >= hits[0] + 900_000_000 ==> At(hits, i + 1) == Window(hits[i + 1], 1)
  {
    if i > 0 {
      AllowedUpToTheLimit(hits, limit, i - 1);
    }
  }

  /** So an employee number gets at most 20 attempts into any quarter of an hour, a device
      60 and a network address 400. */
  lemma AttemptsPerQuarterHour(d: Dimension, hits: seq<Instant>, lo: nat, hi: nat)
    requires Nondecreasing(hits) && lo < hi <= |hits|
    requires hits[hi - 1] - hits[lo] <= WINDOW
    ensures AllowedIn(hits, LimitOf(d), lo, hi) <= match d case Employee => 20 case Device => 60 case Network => 400
  {
    AtMostTwiceTheLimit(hits, LimitOf(d), lo, hi);
  }

  /** A rejected hit does not move the window. */
  lemma RejectionsDoNotExtend(w: Option<Window>, limit: nat, now: Instant)
    requires limit >= 1 && !Decide(AfterHit(w, now), limit, now).allowed
    ensures w.Some? && AfterHit(w, now).startedAt == w.value.startedAt
  {
  }

  /** A rejected subject is admitted by its next hit if it waits the returned number of
      seconds, even when other hits of the subject came in between and were rejected. */
  lemma {:induction false} WaitingIsEnough(w: Option<Window>, limit: nat, now: Instant, between: seq<Instant>, next: Instant)
    requires limit >= 1
    requires var d := Decide(AfterHit(w, now), limit, now); !d.allowed && next >= now + d.retryAfter * SECOND
    requires forall i :: 0 <= i < |between| ==> AfterHit(w, now).startedAt + WINDOW > between[i]
    ensures Decide(AfterHit(Some(AfterAll(AfterHit(w, now), between)), next), limit, next).allowed
  {
    BetweenStays(AfterHit(w, now), between);
  }

  function AfterAll(w: Window, hits: seq<Instant>): Window {
    if hits == [] then w else AfterHit(Some(AfterAll(w, hits[..|hits| - 1])), hits[|hits| - 1])
  }

  lemma {:induction false} BetweenStays(w: Window, hits: seq<Instant>)
    requires forall i :: 0 <= i < |hits| ==> w.startedAt + WINDOW > hits[i]
    ensures AfterAll(w, hits).startedAt == w.startedAt
  {
    if hits != [] {
      BetweenStays(w, hits[..|hits| - 1]);
    }
  }

  /** And no shorter whole number of seconds is: a second less and the hit is rejected. */
  lemma WaitingLessIsNot(w: Option<Window>, limit: nat, now: Instant, next: Instant)
    requires limit >= 1
    requires var d := Decide(AfterHit(w, now), limit, now);
             !d.allowed && d.retryAfter >= 2 && now <= next <= now + (d.retryAfter - 1) * SECOND
    ensures !Decide(AfterHit(Some(AfterHit(w, now)), next), limit, next).allowed
  {
  }
}

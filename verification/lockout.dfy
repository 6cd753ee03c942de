/** Account lockout after wrong PINs, with lock periods that double up to a day. */
module Lockout {
  import opened Base

  datatype Status = Active | Locked | Deactivated

  datatype Account = Account(status: Status, failed: nat, cycle: nat, lockedUntil: Option<Instant>)

  /** `blocked`: the staff member is inactive or the temporary PIN has run out. */
  datatype Attempt = Attempt(pinValid: bool, blocked: bool, now: Instant)

  datatype Verdict = Success | Refused | WrongPin

  const CLEAN := Account(Active, 0, 0, None)

  /** Minutes of the `cycle`-th lock. */
  function LockMinutes(cycle: nat): int {
    var m := 15 * Power2(if cycle == 0 then 0 else cycle - 1);
    if m < 24 * 60 then m else 24 * 60
  }

  // ----- What one login attempt does -----

  function Expired(a: Account, now: Instant): Account {
    if a.status == Locked && a.lockedUntil.Some? && a.lockedUntil.value <= now
    then a.(status := Active, failed := 0, lockedUntil := None)
    else a
  }

  function Recorded(a: Account, now: Instant): Account {
    if a.failed + 1 < 5 then a.(failed := a.failed + 1)
    else Account(Locked, a.failed + 1, a.cycle + 1, Some(now + LockMinutes(a.cycle + 1) * MINUTE))
  }

  function VerdictOn(a: Account, t: Attempt): Verdict {
    if Expired(a, t.now).status != Active || t.blocked then Refused
    else if t.pinValid then Success
    else WrongPin
  }

  function After(a: Account, t: Attempt): Account {
    match VerdictOn(a, t)
    case Refused => Expired(a, t.now)
    case Success => CLEAN
    case WrongPin => Recorded(Expired(a, t.now), t.now)
  }

  class LoginAccount {
    var status: Status
    var failedAttempts: nat
    var lockCycle: nat
    var lockedUntil: Option<Instant>

    function View(): Account
      reads this
    {
      Account(status, failedAttempts, lockCycle, lockedUntil)
    }

    constructor ()
      ensures View() == CLEAN
    {
      status, failedAttempts, lockCycle, lockedUntil := Active, 0, 0, None;
    }

    method ResetFailedAttempts()
      modifies this
      ensures View() == CLEAN.(status := if old(status) == Locked then Active else old(status))
    {
      failedAttempts, lockCycle, lockedUntil := 0, 0, None;
      if status == Locked {
        status := Active;
      }
    }

    method RecordFailedAttempt(now: Instant) returns (minutes: Option<int>)
      modifies this
      ensures View() == Recorded(old(View()), now)
      ensures minutes == if old(failedAttempts) + 1 < 5 then None else Some(LockMinutes(old(lockCycle) + 1))
    {
      failedAttempts := failedAttempts + 1;
      if failedAttempts < 5 {
        return None;
      }
      lockCycle := lockCycle + 1;
      var m := LockMinutes(lockCycle);
      status := Locked;
      lockedUntil := Some(now + m * MINUTE);
      return Some(m);
    }

    method VerifyLoginPin(pinValid: bool, staffActive: bool, temporaryPinExpired: bool, now: Instant) returns (v: Verdict)
      modifies this
      ensures var t := Attempt(pinValid, !staffActive || temporaryPinExpired, now);
              v == VerdictOn(old(View()), t) && View() == After(old(View()), t)
    {
      if status == Locked && lockedUntil.Some? && lockedUntil.value <= now {
        status, failedAttempts, lockedUntil := Active, 0, None;
      }
      if status != Active {
        return Refused;
      }
      if !staffActive {
        return Refused;
      }
      if temporaryPinExpired {
        return Refused;
      }
      if !pinValid {
        var minutes := RecordFailedAttempt(now);
        return WrongPin;
      }
      ResetFailedAttempts();
      return Success;
    }
  }

  /** While the lock lasts no attempt succeeds, not even with the right PIN, and none
      changes the count, the cycle or the deadline. */
  lemma LockedAttemptsChangeNothing(a: Account, t: Attempt)
    requires a.status == Locked && a.lockedUntil.Some? && t.now < a.lockedUntil.value
    ensures VerdictOn(a, t) == Refused && After(a, t) == a
  {
  }

  // ----- Lock periods and logins -----

  /** A quarter of an hour, doubled for each further lock, up to a day. */
  lemma LockPeriods(cycle: nat)
    requires cycle >= 1
    ensures LockMinutes(cycle) == match cycle
              case 1 => 15 case 2 => 30 case 3 => 60 case 4 => 120 case 5 => 240 case 6 => 480 case 7 => 960
              case _ => 1440
  {
    assert Power2(3) == 8 && Power2(6) == 64;
    if cycle >= 8 {
      LongLock(cycle);
    }
  }

  /** A login succeeds exactly with the right PIN, for an unblocked staff member, on an
      account that is active or whose lock has run out; it then starts from scratch. */
  lemma SucceedsIff(a: Account, t: Attempt)
    ensures VerdictOn(a, t) == Success <==>
              && t.pinValid && !t.blocked
              && (a.status == Active || (a.status == Locked && a.lockedUntil.Some? && t.now >= a.lockedUntil.value))
    ensures VerdictOn(a, t) == Success ==> After(a, t) == Account(Active, 0, 0, None)
    ensures VerdictOn(a, t) == Refused && a.status == Active ==> After(a, t) == a
  {
  }

  /** A wrong PIN is counted; the fifth in a row, and the first one counted past four, locks
      the account for the next period, starting now. */
  lemma WrongPinCounts(a: Account, t: Attempt)
    requires VerdictOn(a, t) == WrongPin && a.status == Active
    ensures !t.pinValid
    ensures a.failed < 4 ==> After(a, t) == a.(failed := a.failed + 1)
    ensures a.failed >= 4 ==>
              var after := After(a, t);
              && after.status == Locked && after.cycle == a.cycle + 1
              && after.lockedUntil == Some(t.now + LockMinutes(a.cycle + 1) * 60_000_000)
  {
  }

  /** Five wrong PINs on a clean account lock it for 15 minutes: until then the right PIN is
      refused, and from then on it is accepted. */
  lemma FiveWrongPins(times: seq<Instant>, t: Attempt)
    requires |times| == 5 && t.pinValid && !t.blocked
    ensures var a := Wrong(CLEAN, times);
            && (t.now < times[4] + 900_000_000 ==> VerdictOn(a, t) == Refused)
            && (t.now >= times[4] + 900_000_000 ==> VerdictOn(a, t) == Success)
  {
    LockPeriods(1);
    var four := times[..4];
    assert times[..4][..3] == times[..3] && times[..3][..2] == times[..2] && times[..2][..1] == times[..1] && times[..1][..0] == [];
    assert Wrong(CLEAN, times[..1]) == Account(Active, 1, 0, None);
    assert Wrong(CLEAN, times[..2]) == Account(Active, 2, 0, None);
    assert Wrong(CLEAN, times[..3]) == Account(Active, 3, 0, None);
    assert Wrong(CLEAN, four) == Account(Active, 4, 0, None);
  }

  function Wrong(a: Account, times: seq<Instant>): Account {
    if times == [] then a else After(Wrong(a, times[..|times| - 1]), Attempt(false, false, times[|times| - 1]))
  }

  // ----- Guessing -----

  /** An account under attack: how many wrong PINs were counted, and when. */
  datatype Track = Track(a: Account, counted: nat, first: Instant, last: Instant, clock: Instant)

  function Next(k: Track, t: Attempt): Track {
    var a := After(k.a, t);
    if VerdictOn(k.a, t) == WrongPin
    then Track(a, k.counted + 1, if k.counted == 0 then t.now else k.first, t.now, t.now)
    else k.(a := a, clock := t.now)
  }

  function Watch(k: Track, run: seq<Attempt>): Track {
    if run == [] then k else Next(Watch(k, run[..|run| - 1]), run[|run| - 1])
  }

  function Begin(now: Instant): Track {
    Track(CLEAN, 0, now, now, now)
  }

  /** Clock readings do not go backwards and no attempt succeeds. */
  ghost predicate Guessing(start: Instant, run: seq<Attempt>) {
    forall i :: 0 <= i < |run| ==>
      && Watch(Begin(start), run[..i]).clock <= run[i].now
      && VerdictOn(Watch(Begin(start), run[..i]).a, run[i]) != Success
  }

  /** Total length of the first `k` locks. */
  function TotalLock(k: nat): int {
    if k == 0 then 0 else TotalLock(k - 1) + LockMinutes(k) * MINUTE
  }

  /** The locks last 15, 30, 60, ... minutes and then a day each: 1905 minutes for the
      first seven and a day for every one after. */
  lemma {:induction false} TotalLockClosed(k: nat)
    requires k >= 7
    ensures TotalLock(k) == 1905 * MINUTE + (k - 7) * DAY
  {
    if k == 7 {
      assert Power2(3) == 8 && Power2(6) == 64;
      assert TotalLock(3) == 105 * MINUTE;
      assert TotalLock(5) == 465 * MINUTE;
    } else {
      TotalLockClosed(k - 1);
      LongLock(k);
      assert (k - 7) * DAY == (k - 8) * DAY + DAY;
    }
  }

  lemma {:induction false} LongLock(k: nat)
    requires k >= 8
    ensures Power2(k - 1) >= 128 && LockMinutes(k) == 1440
  {
    if k == 8 {
      assert Power2(3) == 8 && Power2(6) == 64;
    } else {
      LongLock(k - 1);
    }
  }

  predicate TrackOk(k: Track) {
    && k.a.cycle == k.counted / 5
    && k.a.status != Deactivated
    && (k.a.status == Active ==>
          && k.a.failed == k.counted % 5 && k.a.lockedUntil == None
          && (k.counted > 0 ==> k.clock >= k.first + TotalLock(k.counted / 5)))
    && (k.a.status == Locked ==>
          && k.counted > 0 && k.counted % 5 == 0 && k.a.lockedUntil.Some?
          && k.a.lockedUntil.value >= k.first + TotalLock(k.counted / 5))
    && (k.counted > 0 ==> k.last >= k.first + TotalLock((k.counted - 1) / 5))
  }

  lemma ByFives(g: nat)
    ensures g % 5 == 4 ==> (g + 1) / 5 == g / 5 + 1 && (g + 1) % 5 == 0
    ensures g % 5 != 4 ==> (g + 1) / 5 == g / 5 && (g + 1) % 5 == g % 5 + 1
    ensures g > 0 ==> (g - 1) / 5 == if g % 5 == 0 then g / 5 - 1 else g / 5
  {
  }

  lemma NextOk(k: Track, t: Attempt)
    requires TrackOk(k) && k.clock <= t.now && VerdictOn(k.a, t) != Success
    ensures TrackOk(Next(k, t))
  {
    if VerdictOn(k.a, t) == WrongPin {
      ByFives(k.counted);
    }
  }

  lemma {:induction false} TracksAreOk(start: Instant, run: seq<Attempt>)
    requires Guessing(start, run)
    ensures TrackOk(Watch(Begin(start), run))
  {
    if run != [] {
      var front := run[..|run| - 1];
      assert forall i :: 0 <= i < |front| ==> front[i] == run[i] && front[..i] == run[..i];
      TracksAreOk(start, front);
      NextOk(Watch(Begin(start), front), run[|run| - 1]);
    }
  }

  /** From a clean account without a success or a reset, the g-th counted wrong PIN comes
      at least the sum of the first (g-1)/5 lock periods after the first one. */
  lemma GuessingTakesTime(start: Instant, run: seq<Attempt>)
    requires Guessing(start, run)
    ensures var k := Watch(Begin(start), run);
            k.counted > 0 ==> k.last - k.first >= TotalLock((k.counted - 1) / 5)
  {
    TracksAreOk(start, run);
  }

  /** In the long run at most five guesses a day: the 36th and later ones need
      1905 minutes plus a day for every five. */
  lemma LongRunRate(start: Instant, run: seq<Attempt>)
    requires Guessing(start, run)
    ensures var k := Watch(Begin(start), run);
            k.counted > 35 ==> k.last - k.first >= 1905 * MINUTE + ((k.counted - 1) / 5 - 7) * DAY
  {
    var k := Watch(Begin(start), run);
    GuessingTakesTime(start, run);
    if k.counted > 35 {
      TotalLockClosed((k.counted - 1) / 5);
    }
  }

  /** Guesses made as early as the locks permit. */
  function Eager(start: Instant, g: nat): seq<Attempt> {
    seq(g, i requires 0 <= i => EagerAttempt(start, i))
  }

  function EagerAttempt(start: Instant, i: nat): Attempt {
    Attempt(false, false, start + TotalLock(i / 5))
  }

  /** What an eager guesser's account looks like after `g` guesses. */
  predicate EagerTrack(k: Track, start: Instant, g: nat) {
    && k.counted == g
    && (g > 0 ==> k.first == start && k.last == k.clock == start + TotalLock((g - 1) / 5))
    && (g == 0 ==> k.clock == start)
    && k.a == if g > 0 && g % 5 == 0
              then Account(Locked, 5, g / 5, Some(start + TotalLock(g / 5)))
              else Account(Active, g % 5, g / 5, None)
  }

  lemma EagerNext(k: Track, start: Instant, g: nat)
    requires EagerTrack(k, start, g)
    ensures var t := EagerAttempt(start, g);
            k.clock <= t.now && VerdictOn(k.a, t) == WrongPin && EagerTrack(Next(k, t), start, g + 1)
  {
    ByFives(g);
  }

  lemma EagerStep(start: Instant, g: nat)
    ensures Watch(Begin(start), Eager(start, g + 1)) == Next(Watch(Begin(start), Eager(start, g)), EagerAttempt(start, g))
  {
    assert Eager(start, g + 1)[..g] == Eager(start, g);
  }

  lemma {:induction false} EagerCounts(start: Instant, g: nat)
    ensures EagerTrack(Watch(Begin(start), Eager(start, g)), start, g)
  {
    if g > 0 {
      EagerCounts(start, g - 1);
      EagerNext(Watch(Begin(start), Eager(start, g - 1)), start, g - 1);
      EagerStep(start, g - 1);
    }
  }

  /** The bound is exact: an eager guesser has all its guesses counted at just those times. */
  lemma BoundIsExact(start: Instant, g: nat)
    ensures Guessing(start, Eager(start, g))
    ensures EagerTrack(Watch(Begin(start), Eager(start, g)), start, g)
  {
    EagerCounts(start, g);
    forall i | 0 <= i < g
      ensures Watch(Begin(start), Eager(start, g)[..i]).clock <= Eager(start, g)[i].now
      ensures VerdictOn(Watch(Begin(start), Eager(start, g)[..i]).a, Eager(start, g)[i]) != Success
    {
      assert Eager(start, g)[..i] == Eager(start, i);
      EagerCounts(start, i);
      EagerNext(Watch(Begin(start), Eager(start, i)), start, i);
    }
  }
}

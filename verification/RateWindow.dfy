/** The sliding-window limiter that attempt recording and artifact saves share. */
module RateWindow {
  import opened Options

  const WINDOW_SECONDS: real := 60.0

  /** The two limiters differ in their maximum only. */
  type Limit = n: nat | n > 0 witness 1

  const ATTEMPTS_MAX: Limit := 20
  const ARTIFACTS_MAX: Limit := 30

  /** What charging one slot answers: the charged stamp, or the seconds to wait. */
  datatype Charge = Charged(stamp: real) | Limited(retry: int)

  ghost predicate Ascending(s: seq<real>) {
    forall i, j :: 0 <= i < j < |s| ==> s[i] <= s[j]
  }

  /** Of any `max` + 1 consecutive stamps, the outer two are more than a window apart. */
  ghost predicate Spaced(s: seq<real>, max: Limit) {
    forall i, j :: 0 <= i && j == i + max && j < |s| ==> s[j] - s[i] > WINDOW_SECONDS
  }

  /** The stamps of s that lie in the closed interval from lo to hi, as indices. */
  ghost function Within(s: seq<real>, lo: real, hi: real): set<int> {
    set i | 0 <= i < |s| && lo <= s[i] <= hi
  }

  /** The unrefunded charges a call at time `now` has to count. */
  ghost function Recent(kept: seq<real>, now: real): set<int> {
    Within(kept, now - WINDOW_SECONDS, now)
  }

  /** `window` holds the tail of every unrefunded charge; what it dropped is out of every later window. */
  ghost predicate Tracks(kept: seq<real>, window: seq<real>, clock: real, max: Limit) {
    && Ascending(kept)
    && Spaced(kept, max)
    && (forall i :: 0 <= i < |kept| ==> kept[i] <= clock)
    && |window| <= |kept|
    && |window| <= max
    && window == kept[|kept| - |window|..]
    && forall i :: 0 <= i < |kept| - |window| ==> clock - kept[i] > WINDOW_SECONDS
  }

  function IndexOf(s: seq<real>, x: real): (k: nat)
    requires x in s
    ensures k < |s| && s[k] == x && forall i :: 0 <= i < k ==> s[i] != x
  {
    if s[0] == x then 0 else 1 + IndexOf(s[1..], x)
  }

  function RemoveAt(s: seq<real>, k: nat): seq<real>
    requires k < |s|
  {
    s[..k] + s[k + 1..]
  }

  lemma RemoveAtMultiset(s: seq<real>, k: nat)
    requires k < |s|
    ensures multiset(RemoveAt(s, k)) == multiset(s) - multiset{s[k]}
  {
    assert s == s[..k] + [s[k]] + s[k + 1..];
  }

  /** Dropping any one stamp leaves the others spaced and ordered. */
  lemma RemoveAtKeepsSpacing(s: seq<real>, k: nat, max: Limit)
    requires k < |s| && Ascending(s) && Spaced(s, max)
    ensures Ascending(RemoveAt(s, k)) && Spaced(RemoveAt(s, k), max)
  {
    var r := RemoveAt(s, k);
    assert forall i :: 0 <= i < |r| ==> r[i] == if i < k then s[i] else s[i + 1];
    forall i, j | 0 <= i && j == i + max && j < |r|
      ensures r[j] - r[i] > WINDOW_SECONDS
    {
      if k <= i {
        assert s[j + 1] - s[i + 1] > WINDOW_SECONDS;
      } else {
        assert s[j] - s[i] > WINDOW_SECONDS;
        assert s[j] <= r[j];
      }
    }
  }

  /** The bound the limiter exists for: no closed window of a run ever holds more than the maximum. */
  lemma SlidingWindowBound(kept: seq<real>, from: real, max: Limit)
    requires Ascending(kept) && Spaced(kept, max)
    ensures |Within(kept, from, from + WINDOW_SECONDS)| <= max
  {
    var inside := Within(kept, from, from + WINDOW_SECONDS);
    if inside != {} {
      var m := FirstWithin(kept, from, from + WINDOW_SECONDS);
      var n := m + max;
      assert n < |kept| ==> kept[n] > from + WINDOW_SECONDS;
      assert forall i :: n <= i < |kept| ==> kept[n] <= kept[i];
      RangeSize(inside, m, m + max);
    }
  }

  lemma {:induction false} FirstWithin(s: seq<real>, lo: real, hi: real) returns (m: int)
    requires Within(s, lo, hi) != {}
    ensures m in Within(s, lo, hi) && forall i :: i in Within(s, lo, hi) ==> m <= i
  {
    m := 0;
    var some :| some in Within(s, lo, hi);
    while m !in Within(s, lo, hi)
      invariant 0 <= m <= some
      invariant forall i :: 0 <= i < m ==> i !in Within(s, lo, hi)
      decreases some - m
    {
      m := m + 1;
    }
  }

  /** Once expired stamps are gone, the deque's length is the number of charges in the last window. */
  lemma DequeCountsRecent(kept: seq<real>, window: seq<real>, now: real, max: Limit)
    requires Tracks(kept, window, now, max)
    requires window == [] || now - window[0] <= WINDOW_SECONDS
    ensures |Recent(kept, now)| == |window|
  {
    var lo := |kept| - |window|;
    forall i ensures i in Recent(kept, now) <==> lo <= i < |kept| {
      if lo <= i < |kept| {
        assert kept[lo] == window[0] && kept[lo] <= kept[i];
      }
    }
    ExactRangeSize(Recent(kept, now), lo, |kept|);
  }

  /** A full deque frees a slot for every call at or after the reported waiting time. */
  lemma RetryIsEnough(kept: seq<real>, window: seq<real>, now: real, retry: int, later: real, max: Limit)
    requires Tracks(kept, window, now, max) && |window| == max
    requires now + retry as real - window[0] > WINDOW_SECONDS
    requires later >= now + retry as real
    ensures |Recent(kept, later)| < max
  {
    var lo := |kept| - |window|;
    assert kept[lo] == window[0];
    assert forall i :: 0 <= i < lo ==> kept[i] <= kept[lo];
    RangeSize(Recent(kept, later), lo + 1, |kept|);
  }

  /** Until the oldest stamp has left the window, there is no free slot. */
  lemma SlotsStayTaken(kept: seq<real>, window: seq<real>, now: real, later: real, max: Limit)
    requires Tracks(kept, window, now, max) && |window| == max
    requires now <= later && later - window[0] <= WINDOW_SECONDS
    ensures |Recent(kept, later)| >= max
  {
    var lo := |kept| - |window|;
    assert kept[lo] == window[0];
    assert forall i :: lo <= i < |kept| ==> kept[lo] <= kept[i];
    var all := set i | i in Recent(kept, later) && lo <= i;
    ExactRangeSize(all, lo, |kept|);
    SubsetSize(all, Recent(kept, later));
  }

  /** Popping an expired head keeps the deque in step with the history. */
  lemma TracksPop(kept: seq<real>, window: seq<real>, now: real, max: Limit)
    requires Tracks(kept, window, now, max) && window != [] && now - window[0] > WINDOW_SECONDS
    ensures Tracks(kept, window[1..], now, max)
  {
    assert window[0] == kept[|kept| - |window|];
    assert window[1..] == kept[|kept| - |window[1..]|..];
  }

  /** Charging a slot that is free keeps every run of stamps spaced. */
  lemma TracksCharge(kept: seq<real>, window: seq<real>, now: real, max: Limit)
    requires Tracks(kept, window, now, max) && |window| < max
    ensures Tracks(kept + [now], window + [now], now, max)
  {
    var after := kept + [now];
    assert window + [now] == after[|kept| - |window|..];
    forall i, j | 0 <= i && j == i + max && j < |after|
      ensures after[j] - after[i] > WINDOW_SECONDS
    {
      assert j == |kept| ==> i < |kept| - |window|;
      assert j < |kept| ==> kept[j] - kept[i] > WINDOW_SECONDS;
    }
  }

  /** Removing a stamp that is still in the deque removes the same stamp from the history. */
  lemma RemovedTail(kept: seq<real>, window: seq<real>, k: nat)
    requires |window| <= |kept| && window == kept[|kept| - |window|..] && k < |window|
    ensures RemoveAt(window, k) == RemoveAt(kept, |kept| - |window| + k)[|kept| - |window|..]
    ensures multiset(RemoveAt(kept, |kept| - |window| + k)) == multiset(kept) - multiset{window[k]}
    ensures multiset(RemoveAt(window, k)) == multiset(window) - multiset{window[k]}
  {
    RemoveAtMultiset(kept, |kept| - |window| + k);
    RemoveAtMultiset(window, k);
  }

  lemma TracksRefund(kept: seq<real>, window: seq<real>, clock: real, k: nat, max: Limit)
    requires Tracks(kept, window, clock, max) && k < |window|
    ensures Tracks(RemoveAt(kept, |kept| - |window| + k), RemoveAt(window, k), clock, max)
  {
    var lo := |kept| - |window|;
    var less, rest := RemoveAt(kept, lo + k), RemoveAt(window, k);
    assert Ascending(less) && Spaced(less, max) by { RemoveAtKeepsSpacing(kept, lo + k, max); }
    assert |less| - |rest| == lo;
    assert rest == less[lo..] by { RemovedTail(kept, window, k); }
    RemovedKeepsAges(kept, lo + k, lo, clock);
  }

  lemma RemovedKeepsAges(kept: seq<real>, at: nat, lo: nat, clock: real)
    requires lo <= at < |kept|
    requires forall i :: 0 <= i < |kept| ==> kept[i] <= clock
    requires forall i :: 0 <= i < lo ==> clock - kept[i] > WINDOW_SECONDS
    ensures var less := RemoveAt(kept, at);
            && |less| == |kept| - 1
            && (forall i :: 0 <= i < |less| ==> less[i] <= clock)
            && forall i :: 0 <= i < lo ==> clock - less[i] > WINDOW_SECONDS
  {
    var less := RemoveAt(kept, at);
    assert forall i :: 0 <= i < |less| ==> less[i] == if i < at then kept[i] else kept[i + 1];
  }

  /** The reported seconds carry the oldest stamp past the window. */
  function RetryAfter(oldest: real, now: real): (retry: int)
    ensures retry >= 1 && now + retry as real - oldest > WINDOW_SECONDS
    ensures retry > 1 ==> now + (retry - 1) as real - oldest <= WINDOW_SECONDS
  {
    var wait := (WINDOW_SECONDS - (now - oldest)).Floor + 1;
    if wait < 1 then 1 else wait
  }

  /** A charge refunded before anything else happens leaves the budget as a multiset where it was. */
  lemma RefundRestoresBudget(window: seq<real>, now: real)
    ensures now in window + [now]
    ensures multiset(RemoveAt(window + [now], IndexOf(window + [now], now))) == multiset(window)
  {
    var charged := window + [now];
    assert charged[|window|] == now;
    RemoveAtMultiset(charged, IndexOf(charged, now));
  }

  /** Drops expired stamps, then takes a slot if one is free: the deque part of `_check_rate`. */
  method ChargeWindow(window: seq<real>, ghost charges: seq<real>, now: real, max: Limit)
    returns (charge: Charge, window': seq<real>, ghost charges': seq<real>)
    requires Tracks(charges, window, now, max)
    ensures Tracks(charges', window', now, max)
    ensures charge.Charged? <==> |Recent(charges, now)| < max
    ensures charge.Charged? ==> charge.stamp == now && charges' == charges + [now]
    ensures charge.Limited? ==> charges' == charges && charge.retry >= 1
    ensures charge.Limited? ==>
      forall later: real :: later >= now + charge.retry as real ==> |Recent(charges, later)| < max
    ensures charge.Limited? && charge.retry > 1 ==> |Recent(charges, now + (charge.retry - 1) as real)| >= max
  {
    window', charges' := window, charges;
    while window' != [] && now - window'[0] > WINDOW_SECONDS
      invariant Tracks(charges, window', now, max)
      decreases |window'|
    {
      TracksPop(charges, window', now, max);
      window' := window'[1..];
    }
    DequeCountsRecent(charges, window', now, max);
    if |window'| >= max {
      var retry := RetryAfter(window'[0], now);
      forall later: real | later >= now + retry as real ensures |Recent(charges, later)| < max {
        RetryIsEnough(charges, window', now, retry, later, max);
      }
      if retry > 1 { SlotsStayTaken(charges, window', now, now + (retry - 1) as real, max); }
      charge := Limited(retry);
    } else {
      TracksCharge(charges, window', now, max);
      window', charges' := window' + [now], charges + [now];
      charge := Charged(now);
    }
  }

  /** One stamp x less, counted with repetitions. */
  ghost predicate OneLess(before: seq<real>, after: seq<real>, x: real) {
    multiset(after) == multiset(before) - multiset{x}
  }

  /** The deque part of `_refund_rate`: the first equal stamp goes, if there is one. */
  method RefundWindow(window: seq<real>, ghost charges: seq<real>, ghost clock: real, stamp: real, ghost max: Limit)
    returns (window': seq<real>, ghost charges': seq<real>)
    requires Tracks(charges, window, clock, max)
    ensures Tracks(charges', window', clock, max)
    ensures stamp in window ==> OneLess(window, window', stamp) && OneLess(charges, charges', stamp)
    ensures stamp !in window ==> window' == window && charges' == charges
  {
    window', charges' := window, charges;
    if stamp in window {
      var k := IndexOf(window, stamp);
      TracksRefund(charges, window, clock, k, max);
      RemovedTail(charges, window, k);
      window', charges' := RemoveAt(window, k), RemoveAt(charges, |charges| - |window| + k);
    }
  }

  /** Every lesson's deque is in step with its history. */
  ghost predicate TrackAll(windows: map<int, seq<real>>, kept: map<int, seq<real>>, clock: real, max: Limit) {
    && windows.Keys == kept.Keys
    && forall lesson :: lesson in windows ==> Tracks(kept[lesson], windows[lesson], clock, max)
  }

  lemma TrackUpdate(windows: map<int, seq<real>>, kept: map<int, seq<real>>, lesson: int,
                    window: seq<real>, charges: seq<real>, clock: real, max: Limit)
    requires TrackAll(windows, kept, clock, max) && Tracks(charges, window, clock, max)
    ensures TrackAll(windows[lesson := window], kept[lesson := charges], clock, max)
  {
    var windows', kept' := windows[lesson := window], kept[lesson := charges];
    forall l | l in windows' ensures Tracks(kept'[l], windows'[l], clock, max) {
      assert l != lesson ==> Tracks(kept[l], windows[l], clock, max);
    }
  }

  lemma TrackLater(windows: map<int, seq<real>>, kept: map<int, seq<real>>, clock: real, now: real, max: Limit)
    requires TrackAll(windows, kept, clock, max) && clock <= now
    ensures TrackAll(windows, kept, now, max)
  {
    forall l | l in windows ensures Tracks(kept[l], windows[l], now, max) {
      assert Tracks(kept[l], windows[l], clock, max);
    }
  }

  class RateLimiter {
    const max: Limit
    var windows: map<int, seq<real>>
    ghost var kept: map<int, seq<real>>   // every unrefunded charge of the run, per lesson
    ghost var clock: real                 // latest reading of the monotonic clock

    ghost predicate Valid()
      reads this
    {
      TrackAll(windows, kept, clock, max)
    }

    ghost function Kept(lesson: int): seq<real>
      reads this
    {
      if lesson in kept then kept[lesson] else []
    }

    /** What the limiter is for: at any moment of any run, no closed window of 60 seconds anywhere on the
        clock holds more unrefunded charges of a lesson than the maximum. */
    lemma LimiterBound(lesson: int, from: real)
      requires Valid()
      ensures |Within(Kept(lesson), from, from + WINDOW_SECONDS)| <= max
    {
      if lesson in kept {
        assert Tracks(kept[lesson], windows[lesson], clock, max);
      }
      SlidingWindowBound(Kept(lesson), from, max);
    }

    constructor (max: Limit)
      ensures Valid() && windows == map[] && kept == map[] && this.max == max
    {
      this.max := max;
      windows := map[];
      kept := map[];
      clock := 0.0;
    }

    /** Charges one slot exactly when fewer than the maximum lie in the closed window ending now. */
    method Check(lesson: int, now: real) returns (charge: Charge)
      requires Valid() && clock <= now
      modifies this
      ensures Valid() && clock == now
      ensures charge.Charged? <==> |Recent(old(Kept(lesson)), now)| < max
      ensures charge.Charged? ==> charge.stamp == now && kept == old(kept)[lesson := old(Kept(lesson)) + [now]]
      ensures charge.Limited? ==> kept == old(kept)[lesson := old(Kept(lesson))] && charge.retry >= 1
      ensures charge.Limited? ==>
        forall later: real :: later >= now + charge.retry as real ==> |Recent(Kept(lesson), later)| < max
      ensures charge.Limited? && charge.retry > 1 ==> |Recent(Kept(lesson), now + (charge.retry - 1) as real)| >= max
      ensures forall other :: other != lesson && other in old(windows) ==>
        other in windows && windows[other] == old(windows[other])
    {
      var window := if lesson in windows then windows[lesson] else [];
      TrackLater(windows, kept, clock, now, max);
      ghost var charges := Kept(lesson);
      charge, window, charges := ChargeWindow(window, charges, now, max);
      TrackUpdate(windows, kept, lesson, window, charges, now, max);
      clock := now;
      windows := windows[lesson := window];
      kept := kept[lesson := charges];
    }

    /** Returns one slot if its charge is still in the window; an expired charge stays counted. */
    method Refund(lesson: int, stamp: Option<real>)
      requires Valid()
      modifies this
      ensures Valid() && clock == old(clock) && windows.Keys == old(windows.Keys)
      ensures forall l :: l in windows && l != lesson ==> windows[l] == old(windows[l]) && kept[l] == old(kept[l])
      ensures lesson in windows && stamp.Some? && stamp.value in old(windows[lesson]) ==>
                && OneLess(old(windows[lesson]), windows[lesson], stamp.value)
                && OneLess(old(kept[lesson]), kept[lesson], stamp.value)
      ensures lesson in windows && !(stamp.Some? && stamp.value in old(windows[lesson])) ==>
                windows[lesson] == old(windows[lesson]) && kept[lesson] == old(kept[lesson])
    {
      if stamp.Some? && lesson in windows {
        var window;
        ghost var charges;
        window, charges := RefundWindow(windows[lesson], kept[lesson], clock, stamp.value, max);
        SettleWindow(lesson, window, charges);
      }
    }

    /** A lesson's deque and history are replaced together. */
    method SettleWindow(lesson: int, window: seq<real>, ghost charges: seq<real>)
      requires Valid() && Tracks(charges, window, clock, max)
      modifies this`windows, this`kept
      ensures Valid() && windows == old(windows)[lesson := window] && kept == old(kept)[lesson := charges]
    {
      TrackUpdate(windows, kept, lesson, window, charges, clock, max);
      windows, kept := windows[lesson := window], kept[lesson := charges];
    }
  }
}

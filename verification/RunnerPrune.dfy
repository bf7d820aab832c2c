/** The list work of `_prune_locked`: sort the finished jobs, split them, and choose which to drop. */
module RunnerPrune {
  import opened Options
  import opened RunnerRank

  ghost predicate Sorted(times: Times, ids: seq<nat>) {
    && (forall i :: 0 <= i < |ids| ==> ids[i] in times)
    && forall i, j :: 0 <= i < j < |ids| ==> Older(times, ids[i], ids[j])
  }

  function Elements(ids: seq<nat>): set<nat> {
    set x | x in ids
  }

  lemma {:induction false} SortedSize(times: Times, ids: seq<nat>)
    requires Sorted(times, ids)
    ensures |Elements(ids)| == |ids|
  {
    if ids != [] {
      var last := |ids| - 1;
      SortedSize(times, ids[..last]);
      assert ids == ids[..last] + [ids[last]];
      assert Elements(ids) == Elements(ids[..last]) + {ids[last]};
    }
  }

  /** In a sorted list what is newer than an element is what follows it. */
  lemma NewerIsTail(times: Times, ids: seq<nat>, i: nat)
    requires Sorted(times, ids) && i < |ids|
    ensures Elements(ids) <= times.Keys && |Newer(times, Elements(ids), ids[i])| == |ids| - 1 - i
  {
    var tail := ids[i + 1..];
    assert Sorted(times, tail);
    SortedSize(times, tail);
    var newer := Newer(times, Elements(ids), ids[i]);
    forall x ensures x in newer <==> x in Elements(tail) {
      if x in newer {
        var j :| 0 <= j < |ids| && ids[j] == x;
        assert j > i ==> tail[j - (i + 1)] == x;
      }
      if x in tail {
        var j :| 0 <= j < |tail| && tail[j] == x;
        assert ids[i + 1 + j] == x;
      }
    }
    assert newer == Elements(tail);
  }

  /** Dropping from the front of a sorted list until it fits keeps the newest. */
  lemma TailIsNewest(times: Times, ids: seq<nat>, slots: nat)
    requires Sorted(times, ids)
    ensures var excess := if |ids| > slots then |ids| - slots else 0;
            Elements(ids) <= times.Keys
            && Newest(times, Elements(ids), slots) == Elements(ids) - Elements(ids[..excess])
  {
    var excess := if |ids| > slots then |ids| - slots else 0;
    assert Elements(ids) <= times.Keys;
    forall x | x in ids ensures x in Newest(times, Elements(ids), slots) <==> x !in ids[..excess] {
      var i :| 0 <= i < |ids| && ids[i] == x;
      NewerIsTail(times, ids, i);
      assert i < excess ==> ids[..excess][i] == x;
      if x in ids[..excess] {
        var j :| 0 <= j < excess && ids[j] == x;
        assert i == j;
      }
    }
  }

  lemma InsertStaysSorted(times: Times, ids: seq<nat>, k: nat, x: nat)
    requires Sorted(times, ids) && k <= |ids| && x in times
    requires forall i :: 0 <= i < k ==> Older(times, ids[i], x)
    requires k < |ids| ==> Older(times, x, ids[k])
    ensures Sorted(times, ids[..k] + [x] + ids[k..])
  {
    var out := ids[..k] + [x] + ids[k..];
    assert forall i :: 0 <= i < k ==> out[i] == ids[i];
    assert out[k] == x;
    assert forall i :: k < i < |out| ==> out[i] == ids[i - 1];
    forall i | k <= i < |ids| ensures Older(times, x, ids[i]) {
      if i > k { assert Older(times, ids[k], ids[i]); }
    }
  }

  /** `terminal.sort(key=finished)`: stable, so the ids, given in the order of admission, break ties. */
  method SortByFinish(ids: seq<nat>, times: Times) returns (sorted: seq<nat>)
    requires forall i, j :: 0 <= i < j < |ids| ==> ids[i] < ids[j]
    requires forall i :: 0 <= i < |ids| ==> ids[i] in times
    ensures Sorted(times, sorted) && Elements(sorted) == Elements(ids)
  {
    sorted := [];
    for n := 0 to |ids|
      invariant Sorted(times, sorted) && Elements(sorted) == Elements(ids[..n])
    {
      forall i | 0 <= i < |sorted| ensures sorted[i] < ids[n] {
        assert sorted[i] in Elements(ids[..n]);
      }
      var k := PlaceFor(sorted, times, ids[n]);
      InsertStaysSorted(times, sorted, k, ids[n]);
      InsertAddsOne(sorted, k, ids[n]);
      PrefixAddsOne(ids, n);
      sorted := sorted[..k] + [ids[n]] + sorted[k..];
    }
    assert ids[..|ids|] == ids;
  }

  /** A stable sort puts an element behind all that do not finish later. */
  method PlaceFor(sorted: seq<nat>, times: Times, x: nat) returns (k: nat)
    requires Sorted(times, sorted) && x in times && forall i :: 0 <= i < |sorted| ==> sorted[i] < x
    ensures k <= |sorted| && forall i :: 0 <= i < k ==> Older(times, sorted[i], x)
    ensures k < |sorted| ==> Older(times, x, sorted[k])
  {
    k := |sorted|;
    while k > 0 && times[sorted[k - 1]] > times[x]
      invariant 0 <= k <= |sorted|
      invariant k < |sorted| ==> Older(times, x, sorted[k])
    {
      k := k - 1;
    }
    forall i | 0 <= i < k ensures Older(times, sorted[i], x) {
      assert i < k - 1 ==> Older(times, sorted[i], sorted[k - 1]);
    }
  }

  lemma InsertAddsOne(ids: seq<nat>, k: nat, x: nat)
    requires k <= |ids|
    ensures Elements(ids[..k] + [x] + ids[k..]) == Elements(ids) + {x}
  {
    assert ids == ids[..k] + ids[k..];
  }

  lemma PrefixAddsOne(ids: seq<nat>, n: nat)
    requires n < |ids|
    ensures Elements(ids[..n + 1]) == Elements(ids[..n]) + {ids[n]}
  {
    assert ids[..n + 1] == ids[..n] + [ids[n]];
  }

  /** The finished jobs somebody reads, and those nobody reads and that have not expired. */
  function Read(ids: set<nat>, readers: map<nat, nat>): set<nat> {
    set x | x in ids && x in readers && readers[x] > 0
  }

  function Fresh(ids: set<nat>, times: Times, readers: map<nat, nat>, now: int, retention: int): set<nat> {
    set x | x in ids && x in readers && x in times && readers[x] == 0 && now - times[x] < retention
  }

  function Room(limit: nat, taken: nat): nat {
    if taken <= limit then limit - taken else 0
  }

  function Stale(ids: set<nat>, times: Times, readers: map<nat, nat>, now: int, retention: int): set<nat> {
    set x | x in ids && x in readers && x in times && readers[x] == 0 && now - times[x] >= retention
  }

  /** One more element falls into exactly one of the three classes. */
  lemma OneMoreRead(ids: set<nat>, x: nat, readers: map<nat, nat>)
    requires x !in ids && x in readers
    ensures |Read(ids + {x}, readers)| == |Read(ids, readers)| + (if readers[x] > 0 then 1 else 0)
  {
    if readers[x] > 0 {
      assert Read(ids + {x}, readers) == Read(ids, readers) + {x};
    } else {
      assert Read(ids + {x}, readers) == Read(ids, readers);
    }
  }

  lemma OneMoreFresh(ids: set<nat>, x: nat, times: Times, readers: map<nat, nat>, now: int, retention: int)
    requires x in times && x in readers
    ensures var more := Fresh(ids + {x}, times, readers, now, retention);
            more == if readers[x] == 0 && now - times[x] < retention
                    then Fresh(ids, times, readers, now, retention) + {x}
                    else Fresh(ids, times, readers, now, retention) - {x}
  {
  }

  lemma OneMoreStale(ids: set<nat>, x: nat, times: Times, readers: map<nat, nat>, now: int, retention: int)
    requires x in times && x in readers
    ensures var more := Stale(ids + {x}, times, readers, now, retention);
            more == if readers[x] == 0 && now - times[x] >= retention
                    then Stale(ids, times, readers, now, retention) + {x}
                    else Stale(ids, times, readers, now, retention) - {x}
  {
  }

  lemma OlderThanNext(times: Times, unexpired: seq<nat>, ids: set<nat>, x: nat)
    requires Sorted(times, unexpired) && Elements(unexpired) <= ids && x in times
    requires forall y :: y in ids ==> y in times && Older(times, y, x)
    ensures Sorted(times, unexpired + [x]) && Elements(unexpired + [x]) == Elements(unexpired) + {x}
  {
    forall i | 0 <= i < |unexpired| ensures Older(times, unexpired[i], x) {
      assert unexpired[i] in Elements(unexpired);
    }
  }

  lemma SortedStep(times: Times, sorted: seq<nat>, n: nat)
    requires Sorted(times, sorted) && n < |sorted|
    ensures sorted[n] !in Elements(sorted[..n])
    ensures Elements(sorted[..n + 1]) == Elements(sorted[..n]) + {sorted[n]}
    ensures forall x :: x in Elements(sorted[..n]) ==> x in times && Older(times, x, sorted[n])
  {
    assert sorted[..n + 1] == sorted[..n] + [sorted[n]];
  }

  /** Splits the sorted list: how many are read, the expired, and the unexpired rest in order. */
  method Split(sorted: seq<nat>, times: Times, readers: map<nat, nat>, now: int, retention: int)
    returns (taken: nat, expired: set<nat>, unexpired: seq<nat>)
    requires Sorted(times, sorted) && forall i :: 0 <= i < |sorted| ==> sorted[i] in readers
    ensures taken == |Read(Elements(sorted), readers)|
    ensures expired == Stale(Elements(sorted), times, readers, now, retention)
    ensures Sorted(times, unexpired) && Elements(unexpired) == Fresh(Elements(sorted), times, readers, now, retention)
  {
    taken, expired, unexpired := 0, {}, [];
    for n := 0 to |sorted|
      invariant taken == |Read(Elements(sorted[..n]), readers)|
      invariant expired == Stale(Elements(sorted[..n]), times, readers, now, retention)
      invariant Sorted(times, unexpired)
      invariant Elements(unexpired) == Fresh(Elements(sorted[..n]), times, readers, now, retention)
    {
      var x := sorted[n];
      ghost var seen := Elements(sorted[..n]);
      SortedStep(times, sorted, n);
      OneMoreRead(seen, x, readers);
      OneMoreFresh(seen, x, times, readers, now, retention);
      OneMoreStale(seen, x, times, readers, now, retention);
      OlderThanNext(times, unexpired, seen, x);
      if readers[x] > 0 {
        taken := taken + 1;
      } else if now - times[x] >= retention {
        expired := expired + {x};
      } else {
        unexpired := unexpired + [x];
      }
    }
    assert sorted[..|sorted|] == sorted;
  }

  /** Every finished job is dropped except those being read and the newest unexpired others that fit. */
  method ChooseDropped(ids: seq<nat>, times: Times, readers: map<nat, nat>, now: int, retention: int, limit: nat)
    returns (dropped: set<nat>)
    requires forall i, j :: 0 <= i < j < |ids| ==> ids[i] < ids[j]
    requires forall i :: 0 <= i < |ids| ==> ids[i] in times && ids[i] in readers
    ensures var open := Fresh(Elements(ids), times, readers, now, retention);
            dropped == Elements(ids) - Read(Elements(ids), readers)
                       - Newest(times, open, Room(limit, |Read(Elements(ids), readers)|))
  {
    var sorted := SortByFinish(ids, times);
    forall i | 0 <= i < |sorted| ensures sorted[i] in readers {
      assert sorted[i] in Elements(ids);
    }
    var taken, expired, unexpired := Split(sorted, times, readers, now, retention);
    var slots := Room(limit, taken);
    var excess := if |unexpired| > slots then |unexpired| - slots else 0;
    dropped := expired + Elements(unexpired[..excess]);
    TailIsNewest(times, unexpired, slots);
    assert Elements(unexpired[..excess]) <= Elements(unexpired);
    ThreeClasses(Elements(ids), times, readers, now, retention);
  }

  lemma ThreeClasses(ids: set<nat>, times: Times, readers: map<nat, nat>, now: int, retention: int)
    requires ids <= times.Keys && ids <= readers.Keys
    ensures ids - Read(ids, readers)
            == Fresh(ids, times, readers, now, retention) + Stale(ids, times, readers, now, retention)
    ensures Fresh(ids, times, readers, now, retention) !! Stale(ids, times, readers, now, retention)
  {
  }
}

/** Which finished jobs a bounded table keeps: the newest by finish time, ties by age. */
module RunnerRank {
  import opened Options

  /** Finish times by job id; ids grow with age, so a smaller id breaks a tie as the older. */
  type Times = map<nat, int>

  predicate Older(times: Times, a: nat, b: nat)
    requires a in times && b in times
  {
    times[a] < times[b] || (times[a] == times[b] && a < b)
  }

  function Newer(times: Times, among: set<nat>, x: nat): set<nat>
    requires among <= times.Keys && x in times
  {
    set y | y in among && Older(times, x, y)
  }

  /** Those with fewer than `slots` newer ones. */
  function Newest(times: Times, among: set<nat>, slots: nat): set<nat>
    requires among <= times.Keys
  {
    set x | x in among && |Newer(times, among, x)| < slots
  }

  lemma {:induction false} OldestExists(times: Times, among: set<nat>) returns (o: nat)
    requires among <= times.Keys && among != {}
    ensures o in among && forall x :: x in among && x != o ==> Older(times, o, x)
  {
    var y :| y in among;
    if among == {y} {
      o := y;
    } else {
      var rest := among - {y};
      assert among == rest + {y};
      var p := OldestExists(times, rest);
      o := if Older(times, y, p) then y else p;
    }
  }

  /** The slots are filled exactly: as many are kept as fit. */
  lemma {:induction false} NewestFillSlots(times: Times, among: set<nat>, slots: nat)
    requires among <= times.Keys
    ensures |Newest(times, among, slots)| == if |among| <= slots then |among| else slots
    decreases |among|
  {
    if |among| <= slots {
      forall x | x in among ensures |Newer(times, among, x)| < slots {
        SubsetSize(Newer(times, among, x), among - {x});
      }
      assert Newest(times, among, slots) == among;
    } else {
      var o := OldestExists(times, among);
      var rest := among - {o};
      assert Newer(times, among, o) == rest;
      assert |among| == |rest| + 1;
      forall x | x in rest ensures Newer(times, among, x) == Newer(times, rest, x) {
        assert Older(times, o, x);
      }
      assert Newest(times, among, slots) == Newest(times, rest, slots);
      NewestFillSlots(times, rest, slots);
    }
  }

  /** Whatever is dropped is older than everything kept. */
  lemma NewestAreNewer(times: Times, among: set<nat>, slots: nat, kept: nat, dropped: nat)
    requires among <= times.Keys
    requires kept in Newest(times, among, slots) && dropped in among - Newest(times, among, slots)
    ensures Older(times, dropped, kept)
  {
    if Older(times, kept, dropped) {
      SubsetSize(Newer(times, among, dropped), Newer(times, among, kept));
    }
  }
}

/** What every locked section of the runner service keeps. */
module RunnerInvariants {
  import opened Options
  import opened RunnerJob
  import opened RunnerRank
  import opened RunnerTable

  // ---- the shape of the tables ----

  ghost predicate JobOk(t: Table, id: nat)
    requires id in t.heap
  {
    var j := t.heap[id];
    && (j.cause.None? ==> !j.state.Finished?) && (j.finishedAt.Some? <==> j.state.Finished?)
    && j.createdAt <= t.now && (j.finishedAt.Some? ==> j.finishedAt.value <= t.now)
    && (!j.state.Finished? ==> id in t.retained)
    && (j.readerCount > 0 ==> id in t.retained)
  }

  ghost predicate Wf(t: Table) {
    && (forall id: nat :: id in t.heap <==> id < |t.heap|)
    && (forall id :: id in t.retained ==> id in t.heap)
    && forall id {:trigger JobOk(t, id)} :: id in t.heap ==> JobOk(t, id)
  }

  /** Every job object obeys the invariant of its own protocol. */
  ghost predicate JobsOk(t: Table) {
    forall id {:trigger JobInv(t, id)} :: id in t.heap ==> JobInv(t, id)
  }

  ghost predicate JobInv(t: Table, id: nat)
    requires id in t.heap
  {
    RunnerJob.Inv(t.heap[id])
  }

  // ---- capacity ----

  /** The jobs that hold a reservation: those whose termination has not begun. */
  function Live(t: Table): set<nat> {
    set id | id in t.heap && t.heap[id].cause.None?
  }

  function LiveIn(t: Table, lesson: nat): set<nat> {
    set id | id in t.heap && t.heap[id].cause.None? && t.heap[id].request.lesson == lesson
  }

  ghost predicate LessonOk(t: Table, c: Config, lesson: nat) {
    && ActiveIn(t, lesson) == |LiveIn(t, lesson)| <= c.perLessonLimit
    && (lesson in t.activeByLesson ==> t.activeByLesson[lesson] > 0)
  }

  ghost predicate CapacityOk(t: Table, c: Config) {
    && t.activeTotal == |Live(t)| <= c.globalLimit
    && forall lesson {:trigger LessonOk(t, c, lesson)} :: LessonOk(t, c, lesson)
  }

  // ---- the index ----

  ghost predicate Named(t: Table, id: nat)
    requires id in t.heap
  {
    var k := KeyOf(t.heap[id].request);
    k in t.index && t.index[k].jobId == id
  }

  /** Long enough since the job finished for its key to be used again. */
  ghost predicate Settled(t: Table, c: Config, id: nat)
    requires id in t.heap
  {
    t.heap[id].finishedAt.Some? && t.now >= t.heap[id].finishedAt.value + c.retention
  }

  ghost predicate EntryOk(t: Table, c: Config, k: Key)
    requires k in t.index
  {
    var e := t.index[k];
    && e.jobId in t.heap
    && t.heap[e.jobId].request == Request(k.lesson, k.key, e.block, e.rev)
    && (e.expires.Some? <==> t.heap[e.jobId].state.Finished?)
    && (e.expires.Some? && t.heap[e.jobId].finishedAt.Some? ==>
          e.expires.value == t.heap[e.jobId].finishedAt.value + c.retention)
  }

  ghost predicate NameOk(t: Table, c: Config, id: nat)
    requires id in t.heap
  {
    && (id in t.retained ==> Named(t, id))
    && (Named(t, id) || Settled(t, c, id))
  }

  /** `b` was admitted under the same key as `a`, after `a`: long enough after `a` finished. */
  ghost predicate Apart(t: Table, c: Config, a: nat, b: nat)
    requires a in t.heap && b in t.heap
  {
    KeyOf(t.heap[a].request) == KeyOf(t.heap[b].request) ==>
      t.heap[a].finishedAt.Some? && t.heap[a].finishedAt.value + c.retention <= t.heap[b].createdAt
  }

  ghost predicate IndexOk(t: Table, c: Config) {
    && (forall k {:trigger EntryOk(t, c, k)} :: k in t.index ==> EntryOk(t, c, k))
    && (forall id {:trigger NameOk(t, c, id)} :: id in t.heap ==> NameOk(t, c, id))
    && forall a, b {:trigger Apart(t, c, a, b)} :: a in t.heap && b in t.heap && a < b ==> Apart(t, c, a, b)
  }

  // ---- leases and retention ----

  function LeasesOn(t: Table, id: nat): set<nat> {
    set l | l in t.leases && t.leases[l].active && t.leases[l].job == id
  }

  /** A job's reader count is the number of live leases on it. */
  ghost predicate CountOk(t: Table, id: nat)
    requires id in t.heap
  {
    t.heap[id].readerCount == |LeasesOn(t, id)| <= 2
  }

  ghost predicate CountsOk(t: Table) {
    && (forall l :: l in t.leases ==> t.leases[l].job in t.heap)
    && forall id {:trigger CountOk(t, id)} :: id in t.heap ==> CountOk(t, id)
  }

  ghost predicate BoundsOk(t: Table, c: Config) {
    |BeingRead(t)| <= c.maxTerminal && |Terminal(t)| <= c.maxTerminal
  }

  ghost predicate Inv(t: Table, c: Config) {
    Wf(t) && JobsOk(t) && CapacityOk(t, c) && IndexOk(t, c) && CountsOk(t) && BoundsOk(t, c)
  }

  // ---- tables that look alike ----

  /** Capacity only looks at causes, lessons and the counters. */
  lemma SameCapacity(t: Table, s: Table, c: Config)
    requires CapacityOk(t, c)
    requires s.heap.Keys == t.heap.Keys && s.activeTotal == t.activeTotal && s.activeByLesson == t.activeByLesson
    requires forall id :: id in t.heap ==>
                            s.heap[id].cause.None? == t.heap[id].cause.None? && s.heap[id].request == t.heap[id].request
    ensures CapacityOk(s, c)
  {
    assert Live(s) == Live(t);
    forall lesson ensures LessonOk(s, c, lesson) {
      assert LessonOk(t, c, lesson);
      assert LiveIn(s, lesson) == LiveIn(t, lesson);
    }
  }

  /** The index only looks at requests and times. */
  ghost predicate SameHistory(j: Job, k: Job) {
    && k.request == j.request && k.state == j.state && k.finishedAt == j.finishedAt && k.createdAt == j.createdAt
  }

  lemma SameIndex(t: Table, s: Table, c: Config)
    requires IndexOk(t, c)
    requires s.heap.Keys == t.heap.Keys && s.index == t.index && s.retained == t.retained && t.now <= s.now
    requires forall id :: id in t.heap ==> SameHistory(t.heap[id], s.heap[id])
    ensures IndexOk(s, c)
  {
    forall k | k in s.index ensures EntryOk(s, c, k) {
      assert EntryOk(t, c, k);
    }
    forall id | id in s.heap ensures NameOk(s, c, id) {
      assert NameOk(t, c, id) && SameHistory(t.heap[id], s.heap[id]);
    }
    forall a, b | a in s.heap && b in s.heap && a < b ensures Apart(s, c, a, b) {
      assert Apart(t, c, a, b) && SameHistory(t.heap[a], s.heap[a]) && SameHistory(t.heap[b], s.heap[b]);
    }
  }

  lemma SameCounts(t: Table, s: Table)
    requires CountsOk(t)
    requires s.heap.Keys == t.heap.Keys && s.leases == t.leases
    requires forall id :: id in t.heap ==> s.heap[id].readerCount == t.heap[id].readerCount
    ensures CountsOk(s)
  {
    forall id | id in s.heap ensures CountOk(s, id) {
      assert CountOk(t, id);
      assert LeasesOn(s, id) == LeasesOn(t, id);
    }
  }

  lemma SameWf(t: Table, s: Table)
    requires Wf(t) && s.heap == t.heap && s.retained == t.retained && s.now == t.now
    ensures Wf(s)
  {
    forall id | id in s.heap ensures JobOk(s, id) {
      assert JobOk(t, id);
    }
  }

  lemma OneMoreJobInv(t: Table, s: Table, id: nat, j: Job)
    requires JobsOk(t) && RunnerJob.Inv(j) && s.heap == t.heap[id := j]
    ensures JobsOk(s)
  {
    forall x | x in s.heap ensures JobInv(s, x) {
      assert x != id ==> JobInv(t, x);
    }
  }

  // ---- time passes, admission stops ----

  /** Nothing the invariant looks at changes but the clock. */
  lemma ClockKeepsInv(t: Table, c: Config, now: int, accepting: bool)
    requires Inv(t, c) && t.now <= now
    ensures Inv(t.(now := now, accepting := accepting), c)
  {
    var s := t.(now := now, accepting := accepting);
    SameCapacity(t, s, c);
    SameIndex(t, s, c);
    SameCounts(t, s);
    assert BeingRead(s) == BeingRead(t) && Terminal(s) == Terminal(t);
    forall id | id in s.heap ensures JobOk(s, id) && JobInv(s, id) {
      assert JobOk(t, id) && JobInv(t, id);
    }
  }

  // ---- pruning ----

  lemma PruneKeepsWf(t: Table, c: Config)
    requires Wf(t)
    ensures Wf(Prune(t, c))
  {
    var s := Prune(t, c);
    forall id | id in s.heap ensures JobOk(s, id) {
      assert JobOk(t, id);
    }
  }

  lemma PruneKeepsIndex(t: Table, c: Config)
    requires Wf(t) && IndexOk(t, c)
    ensures IndexOk(Prune(t, c), c)
  {
    var s := Prune(t, c);
    forall k | k in s.index ensures EntryOk(s, c, k) {
      assert EntryOk(t, c, k);
    }
    forall id | id in s.heap ensures NameOk(s, c, id) {
      assert NameOk(t, c, id) && JobOk(t, id);
      if Named(t, id) && !Named(s, id) {
        assert EntryOk(t, c, KeyOf(t.heap[id].request));
      }
    }
    forall a, b | a in s.heap && b in s.heap && a < b ensures Apart(s, c, a, b) {
      assert Apart(t, c, a, b);
    }
  }

  /** What stays of the finished jobs: those being read, and the newest others that fit. */
  lemma PrunedTerminals(t: Table, c: Config)
    ensures BeingRead(Prune(t, c)) == BeingRead(t)
    ensures Terminal(Prune(t, c)) == Protected(t) + Kept(t, c)
    ensures Protected(t) <= BeingRead(t)
  {
    var s := Prune(t, c);
    assert Kept(t, c) <= Unexpired(t, c) <= Terminal(t);
    forall id ensures id in Terminal(s) <==> id in Protected(t) + Kept(t, c) {
    }
    forall id ensures id in BeingRead(s) <==> id in BeingRead(t) {
    }
  }

  /** After pruning no more finished jobs are held than the limit, whatever was held before. */
  lemma PruneBoundsTerminal(t: Table, c: Config)
    requires |BeingRead(t)| <= c.maxTerminal
    ensures BoundsOk(Prune(t, c), c)
  {
    PrunedTerminals(t, c);
    NewestFillSlots(FinishTimes(t), Unexpired(t, c), Slots(t, c));
    SubsetSize(Protected(t), BeingRead(t));
    assert |Protected(t) + Kept(t, c)| == |Protected(t)| + |Kept(t, c)| - |Protected(t) * Kept(t, c)|;
  }

  lemma PruneKeepsInv(t: Table, c: Config)
    requires Wf(t) && JobsOk(t) && CapacityOk(t, c) && IndexOk(t, c) && CountsOk(t)
    requires |BeingRead(t)| <= c.maxTerminal
    ensures Inv(Prune(t, c), c)
  {
    PruneKeepsWf(t, c);
    PruneKeepsIndex(t, c);
    PruneBoundsTerminal(t, c);
    var s := Prune(t, c);
    SameCapacity(t, s, c);
    SameCounts(t, s);
    forall id | id in s.heap ensures JobInv(s, id) {
      assert JobInv(t, id);
    }
  }

  // ---- a job moves on ----

  /** What the service relies on when a job takes a step. */
  ghost predicate Moves(was: Job, j: Job, now: int) {
    && j.request == was.request && j.createdAt == was.createdAt && j.readerCount == was.readerCount
    && (was.cause.Some? ==> j.cause.Some?) && (j.cause.None? ==> !j.state.Finished?)
    && (was.state.Finished? ==> j.state.Finished? && j.finishedAt == was.finishedAt)
    && (j.finishedAt.Some? <==> j.state.Finished?)
    && (!was.state.Finished? && j.state.Finished? ==> j.finishedAt == Some(now))
  }

  lemma StepMoves(was: Job, a: Action, now: int)
    requires RunnerJob.Inv(was) && CanStep(was, a)
    ensures RunnerJob.Inv(Step(was, a, now)) && Moves(was, Step(was, a, now), now)
  {
    RunnerJob.StepKeepsInv(was, a, now);
    StepIsLater(was, a, now);
  }

  /** The tables with the job replaced and its reservation given back, before any pruning. */
  function Stored(t: Table, id: nat, j: Job): Table
    requires id in t.heap
  {
    var stored := t.(heap := t.heap[id := j]);
    if t.heap[id].cause.None? && j.cause.Some? then Release(stored, j.request.lesson) else stored
  }

  lemma StoredKeepsWf(t: Table, id: nat, j: Job)
    requires Wf(t) && id in t.heap && Moves(t.heap[id], j, t.now)
    ensures Wf(Stored(t, id, j))
  {
    var s := Stored(t, id, j);
    assert s.heap.Keys == t.heap.Keys;
    SameKeysSameSize(t.heap, s.heap);
    forall x | x in s.heap ensures JobOk(s, x) {
      assert JobOk(t, x);
    }
  }

  lemma ReleaseKeepsLesson(t: Table, c: Config, id: nat, j: Job, l: nat)
    requires LessonOk(t, c, l) && id in t.heap && Moves(t.heap[id], j, t.now)
    requires t.heap[id].cause.None? && j.cause.Some?
    ensures LessonOk(Stored(t, id, j), c, l)
  {
    var s := Stored(t, id, j);
    if l == j.request.lesson {
      assert id in LiveIn(t, l);
      assert LiveIn(s, l) == LiveIn(t, l) - {id};
    } else {
      assert LiveIn(s, l) == LiveIn(t, l);
    }
  }

  /** The first cause gives back exactly the reservation of its own job. */
  lemma StoredKeepsCapacity(t: Table, c: Config, id: nat, j: Job)
    requires CapacityOk(t, c) && id in t.heap && Moves(t.heap[id], j, t.now)
    ensures CapacityOk(Stored(t, id, j), c)
  {
    var s := Stored(t, id, j);
    if t.heap[id].cause.None? && j.cause.Some? {
      assert Live(s) == Live(t) - {id};
      forall l ensures LessonOk(s, c, l) {
        assert LessonOk(t, c, l);
        ReleaseKeepsLesson(t, c, id, j, l);
      }
    } else {
      SameCapacity(t, s, c);
    }
  }

  /** A job that just finished has its entry's expiry started before anything is pruned. */
  function Aged(t: Table, c: Config, id: nat, j: Job): Table
    requires id in t.heap
  {
    var s := Stored(t, id, j);
    if !IsTerminal(t, id) && IsTerminal(s, id) then StartExpiry(s, c, id) else s
  }

  lemma AgedKeepsEntry(t: Table, c: Config, id: nat, j: Job, k: Key)
    requires id in t.heap && JobOk(t, id) && Moves(t.heap[id], j, t.now)
    requires k in t.index && EntryOk(t, c, k)
    ensures k in Aged(t, c, id, j).index && EntryOk(Aged(t, c, id, j), c, k)
  {
    var s := Aged(t, c, id, j);
    AgedFields(t, c, id, j);
    if t.index[k].jobId == id {
      assert k == KeyOf(j.request);
    } else {
      assert s.index[k] == t.index[k];
    }
  }

  /** What ageing touches besides the counters: the job, and its entry if it has just finished. */
  lemma AgedFields(t: Table, c: Config, id: nat, j: Job)
    requires id in t.heap && JobOk(t, id) && Moves(t.heap[id], j, t.now)
    ensures var s, k := Aged(t, c, id, j), KeyOf(j.request);
            && s.heap == t.heap[id := j] && s.retained == t.retained && s.now == t.now && s.leases == t.leases
            && s.index == (if !t.heap[id].state.Finished? && j.state.Finished? && k in t.index && t.index[k].jobId == id
                           then t.index[k := t.index[k].(expires := Some(j.finishedAt.value + c.retention))]
                           else t.index)
  {
    assert IsTerminal(t, id) == t.heap[id].state.Finished?;
  }

  lemma AgedKeepsName(t: Table, c: Config, id: nat, j: Job, x: nat)
    requires id in t.heap && JobOk(t, id) && Moves(t.heap[id], j, t.now)
    requires x in t.heap && NameOk(t, c, x)
    ensures NameOk(Aged(t, c, id, j), c, x)
  {
  }

  lemma AgedKeepsApart(t: Table, c: Config, id: nat, j: Job, a: nat, b: nat)
    requires id in t.heap && JobOk(t, id) && Moves(t.heap[id], j, t.now)
    requires a in t.heap && b in t.heap && Apart(t, c, a, b)
    ensures Apart(Aged(t, c, id, j), c, a, b)
  {
  }

  lemma AgedKeepsEntries(t: Table, c: Config, id: nat, j: Job)
    requires Wf(t) && IndexOk(t, c) && id in t.heap && Moves(t.heap[id], j, t.now)
    ensures var s := Aged(t, c, id, j);
            forall k {:trigger EntryOk(s, c, k)} :: k in s.index ==> EntryOk(s, c, k)
  {
    var s := Aged(t, c, id, j);
    assert JobOk(t, id);
    forall k | k in s.index ensures EntryOk(s, c, k) {
      assert k in t.index && EntryOk(t, c, k);
      AgedKeepsEntry(t, c, id, j, k);
    }
  }

  lemma AgedKeepsIndex(t: Table, c: Config, id: nat, j: Job)
    requires Wf(t) && IndexOk(t, c) && id in t.heap && Moves(t.heap[id], j, t.now)
    ensures IndexOk(Aged(t, c, id, j), c)
  {
    var s := Aged(t, c, id, j);
    assert JobOk(t, id) && s.heap.Keys == t.heap.Keys;
    AgedKeepsEntries(t, c, id, j);
    forall x | x in s.heap ensures NameOk(s, c, x) {
      assert NameOk(t, c, x);
      AgedKeepsName(t, c, id, j, x);
    }
    forall a, b | a in s.heap && b in s.heap && a < b ensures Apart(s, c, a, b) {
      assert Apart(t, c, a, b);
      AgedKeepsApart(t, c, id, j, a, b);
    }
  }

  lemma AgedKeepsRest(t: Table, c: Config, id: nat, j: Job)
    requires Wf(t) && JobsOk(t) && CapacityOk(t, c) && id in t.heap && RunnerJob.Inv(j) && Moves(t.heap[id], j, t.now)
    ensures var s := Aged(t, c, id, j);
            Wf(s) && JobsOk(s) && CapacityOk(s, c)
  {
    var stored, s := Stored(t, id, j), Aged(t, c, id, j);
    StoredKeepsWf(t, id, j);
    SameWf(stored, s);
    StoredKeepsCapacity(t, c, id, j);
    SameCapacity(stored, s, c);
    OneMoreJobInv(t, s, id, j);
  }

  lemma AgedKeepsCounts(t: Table, c: Config, id: nat, j: Job)
    requires CountsOk(t) && id in t.heap && JobOk(t, id) && Moves(t.heap[id], j, t.now)
    ensures CountsOk(Aged(t, c, id, j))
  {
    AgedFields(t, c, id, j);
    SameCounts(t, Aged(t, c, id, j));
  }

  lemma AgedKeepsReaders(t: Table, c: Config, id: nat, j: Job)
    requires id in t.heap && Moves(t.heap[id], j, t.now)
    ensures BeingRead(Aged(t, c, id, j)) == BeingRead(t)
  {
    var s := Aged(t, c, id, j);
    assert s.retained == t.retained && s.heap == t.heap[id := j];
  }

  lemma AgedKeepsTerminal(t: Table, c: Config, id: nat, j: Job)
    requires id in t.heap && Moves(t.heap[id], j, t.now) && IsTerminal(t, id) == j.state.Finished?
    requires t.heap[id].state.Finished? ==> t.heap[id].finishedAt.Some?
    ensures Terminal(Aged(t, c, id, j)) == Terminal(t)
  {
    var s := Aged(t, c, id, j);
    assert s.retained == t.retained && s.heap == t.heap[id := j];
  }

  lemma ApplyKeepsInv(t: Table, c: Config, id: nat, j: Job)
    requires Inv(t, c) && id in t.heap && RunnerJob.Inv(j) && Moves(t.heap[id], j, t.now)
    ensures Inv(Apply(t, c, id, j), c)
  {
    var aged := Aged(t, c, id, j);
    assert JobOk(t, id);
    AgedKeepsRest(t, c, id, j);
    AgedKeepsCounts(t, c, id, j);
    AgedKeepsReaders(t, c, id, j);
    AgedKeepsIndex(t, c, id, j);
    if !IsTerminal(t, id) && IsTerminal(Stored(t, id, j), id) {
      PruneKeepsInv(aged, c);
    } else {
      AgedKeepsTerminal(t, c, id, j);
    }
  }

  lemma StepJobKeepsInv(t: Table, c: Config, id: nat, a: Action)
    requires Inv(t, c) && id in t.heap && CanStep(t.heap[id], a)
    ensures Inv(StepJob(t, c, id, a), c)
  {
    assert JobInv(t, id);
    StepMoves(t.heap[id], a, t.now);
    ApplyKeepsInv(t, c, id, Step(t.heap[id], a, t.now));
  }

  // ---- admission ----

  lemma ReserveKeepsWf(t: Table, r: Request)
    requires Wf(t)
    ensures Wf(Reserve(t, r)) && |t.heap| !in t.heap
  {
    var s := Reserve(t, r);
    var id := |t.heap|;
    assert s.heap.Keys == t.heap.Keys + {id};
    assert |s.heap| == |s.heap.Keys| && |t.heap| == |t.heap.Keys|;
    forall x | x in s.heap ensures JobOk(s, x) {
      assert x != id ==> JobOk(t, x);
    }
  }

  lemma ReserveAddsLive(t: Table, r: Request, l: nat)
    ensures |t.heap| !in t.heap ==>
              LiveIn(Reserve(t, r), l) == LiveIn(t, l) + (if l == r.lesson then {|t.heap|} else {})
    ensures |t.heap| !in t.heap ==> Live(Reserve(t, r)) == Live(t) + {|t.heap|}
  {
    assert Reserve(t, r).heap == t.heap[|t.heap| := NewJob(r, t.now)];
  }

  lemma ReserveKeepsLesson(t: Table, c: Config, r: Request, l: nat)
    requires |t.heap| !in t.heap && LessonOk(t, c, l) && !LessonFull(t, c, r.lesson)
    ensures LessonOk(Reserve(t, r), c, l)
  {
    ReserveAddsLive(t, r, l);
    assert |t.heap| !in LiveIn(t, l);
  }

  lemma ReserveKeepsCapacity(t: Table, c: Config, r: Request)
    requires |t.heap| !in t.heap && CapacityOk(t, c) && !LessonFull(t, c, r.lesson) && !GlobalFull(t, c)
    ensures CapacityOk(Reserve(t, r), c)
  {
    var s, id := Reserve(t, r), |t.heap|;
    ReserveAddsLive(t, r, r.lesson);
    assert id !in Live(t);
    forall l ensures LessonOk(s, c, l) {
      assert LessonOk(t, c, l);
      ReserveKeepsLesson(t, c, r, l);
    }
  }

  /** No entry for the key: every earlier job under it finished long enough ago. */
  lemma ReserveKeepsIndex(t: Table, c: Config, r: Request)
    requires Wf(t) && IndexOk(t, c) && KeyOf(r) !in t.index
    ensures IndexOk(Reserve(t, r), c)
  {
    var s, id := Reserve(t, r), |t.heap|;
    forall k | k in s.index ensures EntryOk(s, c, k) {
      if k != KeyOf(r) { assert EntryOk(t, c, k); }
    }
    forall x | x in s.heap ensures NameOk(s, c, x) {
      if x != id { assert NameOk(t, c, x); }
    }
    forall a, b | a in s.heap && b in s.heap && a < b ensures Apart(s, c, a, b) {
      if b == id {
        assert NameOk(t, c, a);
      } else {
        assert Apart(t, c, a, b);
      }
    }
  }

  lemma ReserveKeepsCounts(t: Table, c: Config, r: Request)
    requires Wf(t) && CountsOk(t) && BoundsOk(t, c)
    ensures CountsOk(Reserve(t, r)) && BoundsOk(Reserve(t, r), c)
  {
    var s, id := Reserve(t, r), |t.heap|;
    assert BeingRead(s) == BeingRead(t) && Terminal(s) == Terminal(t);
    forall x | x in s.heap ensures CountOk(s, x) {
      assert LeasesOn(s, x) == LeasesOn(t, x);
      if x == id {
        assert LeasesOn(s, x) == {};
      } else {
        assert CountOk(t, x);
      }
    }
  }

  lemma ReserveKeepsInv(t: Table, c: Config, r: Request)
    requires Inv(t, c) && ReplayLocked(t, r).Absent? && !LessonFull(t, c, r.lesson) && !GlobalFull(t, c)
    ensures Inv(Reserve(t, r), c)
  {
    ReserveKeepsWf(t, r);
    OneMoreJobInv(t, Reserve(t, r), |t.heap|, NewJob(r, t.now));
    ReserveKeepsCapacity(t, c, r);
    ReserveKeepsIndex(t, c, r);
    ReserveKeepsCounts(t, c, r);
  }

  // ---- leases ----

  lemma ReadersKeepWf(t: Table, id: nat, n: nat, leases: map<nat, Lease>)
    requires Wf(t) && id in t.heap && (n > 0 ==> id in t.retained)
    ensures Wf(SetReaders(t, id, n).(leases := leases))
  {
    var s := SetReaders(t, id, n).(leases := leases);
    assert s.heap.Keys == t.heap.Keys;
    SameKeysSameSize(t.heap, s.heap);
    forall x | x in s.heap ensures JobOk(s, x) {
      assert JobOk(t, x);
    }
  }

  lemma ReadersKeepJobs(t: Table, id: nat, n: nat, leases: map<nat, Lease>)
    requires JobsOk(t) && id in t.heap
    ensures var s := SetReaders(t, id, n).(leases := leases);
            JobsOk(s) && Terminal(s) == Terminal(t)
  {
    var s := SetReaders(t, id, n).(leases := leases);
    assert JobInv(t, id);
    OneMoreJobInv(t, s, id, t.heap[id].(readerCount := n));
    assert s.retained == t.retained && s.heap == t.heap[id := t.heap[id].(readerCount := n)];
  }

  /** Reader counts are of no interest to the jobs, capacity and the index. */
  lemma ReadersKeepRest(t: Table, c: Config, id: nat, n: nat, leases: map<nat, Lease>)
    requires Inv(t, c) && id in t.heap && (n > 0 ==> id in t.retained)
    ensures var s := SetReaders(t, id, n).(leases := leases);
            Wf(s) && JobsOk(s) && CapacityOk(s, c) && IndexOk(s, c) && Terminal(s) == Terminal(t)
  {
    var s := SetReaders(t, id, n).(leases := leases);
    assert s.heap.Keys == t.heap.Keys;
    ReadersKeepWf(t, id, n, leases);
    ReadersKeepJobs(t, id, n, leases);
    SameCapacity(t, s, c);
    SameIndex(t, s, c);
  }

  /** The counts stay right when one lease on `id` is added or ends and its count follows. */
  lemma LeaseKeepsCounts(t: Table, id: nat, l: nat, active: bool)
    requires CountsOk(t) && id in t.heap
    requires if active then l !in t.leases && t.heap[id].readerCount < 2
             else l in t.leases && t.leases[l] == Lease(id, true) && t.heap[id].readerCount > 0
    ensures var n := t.heap[id].readerCount;
            CountsOk(SetReaders(t, id, if active then n + 1 else n - 1).(leases := t.leases[l := Lease(id, active)]))
  {
    var n := t.heap[id].readerCount;
    var s := SetReaders(t, id, if active then n + 1 else n - 1).(leases := t.leases[l := Lease(id, active)]);
    forall x | x in s.heap ensures CountOk(s, x) {
      assert CountOk(t, x);
      if x != id {
        assert LeasesOn(s, x) == LeasesOn(t, x);
      } else if active {
        assert LeasesOn(s, x) == LeasesOn(t, x) + {l};
      } else {
        assert l in LeasesOn(t, x) && LeasesOn(s, x) == LeasesOn(t, x) - {l};
      }
    }
  }

  /** A first lease needs a free place; a second finds its job already counted. */
  lemma AttachKeepsBounds(t: Table, c: Config, l: nat, id: nat)
    requires MayAttach(t, c, id) && |BeingRead(t)| <= c.maxTerminal
    ensures |BeingRead(Attach(t, c, l, id))| <= c.maxTerminal
  {
    var s := Attach(t, c, l, id);
    assert s.heap == t.heap[id := t.heap[id].(readerCount := t.heap[id].readerCount + 1)] && s.retained == t.retained;
    assert BeingRead(s) == BeingRead(t) + {id};
    assert t.heap[id].readerCount > 0 ==> id in BeingRead(t);
  }

  lemma AttachKeepsInv(t: Table, c: Config, l: nat, id: nat)
    requires Inv(t, c) && MayAttach(t, c, id) && l !in t.leases
    ensures Inv(Attach(t, c, l, id), c)
  {
    var s := Attach(t, c, l, id);
    ReadersKeepRest(t, c, id, t.heap[id].readerCount + 1, s.leases);
    LeaseKeepsCounts(t, id, l, true);
    AttachKeepsBounds(t, c, l, id);
  }

  lemma LiveLeaseIsCounted(t: Table, l: nat)
    requires CountsOk(t) && l in t.leases && t.leases[l].active
    ensures t.leases[l].job in t.heap && t.heap[t.leases[l].job].readerCount > 0
  {
    var id := t.leases[l].job;
    assert CountOk(t, id);
    assert l in LeasesOn(t, id);
  }

  lemma DetachKeepsInv(t: Table, c: Config, l: nat)
    requires Inv(t, c) && l in t.leases && t.leases[l].job in t.heap
    ensures Inv(Detach(t, c, l), c)
  {
    if t.leases[l].active {
      LiveLeaseIsCounted(t, l);
      var id := t.leases[l].job;
      var n := t.heap[id].readerCount;
      assert JobOk(t, id);
      var leases := t.leases[l := Lease(id, false)];
      var s := SetReaders(t, id, n - 1).(leases := leases);
      ReadersKeepRest(t, c, id, n - 1, leases);
      LeaseKeepsCounts(t, id, l, false);
      assert BeingRead(s) <= BeingRead(t);
      SubsetSize(BeingRead(s), BeingRead(t));
      PruneKeepsInv(s, c);
    }
  }

  // ---- shutdown ----

  /** Beginning a termination is a step of the job like any other. */
  lemma BeginIsApply(t: Table, c: Config, id: nat, cause: Cause)
    requires id in t.heap && JobOk(t, id) && JobInv(t, id)
    ensures Begin(t, id, cause) == Apply(t, c, id, BeginTermination(t.heap[id], cause))
  {
    if t.heap[id].cause.Some? {
      assert t.heap[id := t.heap[id]] == t.heap;
    }
  }

  lemma BeginKeepsTable(t: Table, c: Config, id: nat, cause: Cause)
    requires Inv(t, c) && id in t.heap && Fits(t.heap[id], cause)
    ensures Inv(Begin(t, id, cause), c)
  {
    assert JobOk(t, id) && JobInv(t, id);
    RunnerJob.BeginKeepsInv(t.heap[id], cause);
    BeginIsApply(t, c, id, cause);
    ApplyKeepsInv(t, c, id, BeginTermination(t.heap[id], cause));
  }

  lemma ShutKeepsJobs(t: Table)
    requires Wf(t) && JobsOk(t)
    ensures Wf(Shut(t)) && JobsOk(Shut(t))
    ensures forall id :: id in t.heap ==> Shut(t).heap[id].cause.Some?
  {
    var s := Shut(t);
    assert s.heap.Keys == t.heap.Keys;
    SameKeysSameSize(t.heap, s.heap);
    forall id | id in s.heap ensures JobOk(s, id) && JobInv(s, id) && s.heap[id].cause.Some? {
      assert JobOk(t, id) && JobInv(t, id);
      RunnerJob.BeginKeepsInv(t.heap[id], ShutDown);
    }
  }

  /** Nothing is left to count, so the cleared counters are exact. */
  lemma ShutKeepsCapacity(t: Table, c: Config)
    requires forall id :: id in t.heap ==> Shut(t).heap[id].cause.Some?
    ensures CapacityOk(Shut(t), c) && Live(Shut(t)) == {}
  {
    var s := Shut(t);
    assert Live(s) == {};
    forall l ensures LessonOk(s, c, l) {
      assert LiveIn(s, l) == {};
    }
  }

  /** The locked section of `shutdown` leaves no reservation at all. */
  lemma ShutReleasesAll(t: Table, c: Config)
    requires Inv(t, c)
    ensures Inv(Shut(t), c) && Shut(t).activeTotal == 0 && !Shut(t).accepting && Live(Shut(t)) == {}
  {
    var s := Shut(t);
    ShutKeepsJobs(t);
    ShutKeepsCapacity(t, c);
    assert s.heap.Keys == t.heap.Keys;
    ShutKeepsIndex(t, c);
    SameCounts(t, s);
    assert BeingRead(s) == BeingRead(t);
    assert Terminal(s) == Terminal(t);
  }

  lemma ShutKeepsIndex(t: Table, c: Config)
    requires IndexOk(t, c)
    ensures IndexOk(Shut(t), c)
  {
    var s := Shut(t);
    forall k | k in s.index ensures EntryOk(s, c, k) {
      assert EntryOk(t, c, k);
    }
    forall id | id in s.heap ensures NameOk(s, c, id) {
      assert NameOk(t, c, id);
    }
    forall a, b | a in s.heap && b in s.heap && a < b ensures Apart(s, c, a, b) {
      assert Apart(t, c, a, b);
    }
  }

  /** With no reservation left the counters are zero and empty. */
  lemma NothingLiveNothingCounted(t: Table, c: Config)
    requires CapacityOk(t, c) && Live(t) == {}
    ensures t.activeTotal == 0 && t.activeByLesson == map[]
  {
    forall l ensures l !in t.activeByLesson {
      assert LessonOk(t, c, l);
      assert LiveIn(t, l) <= Live(t);
    }
    assert t.activeByLesson.Keys == {};
  }
}

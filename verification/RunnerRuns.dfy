/** Runs of the runner service, and what holds in every state of every run. */
module RunnerRuns {
  import opened Options
  import opened RunnerJob
  import opened RunnerRank
  import opened RunnerTable
  import opened RunnerInvariants
  import opened RunnerSystem

  // ---- the tables only move forward ----

  lemma {:induction false} TableLaterTransitive(t: Table, u: Table, v: Table)
    requires TableLater(t, u) && TableLater(u, v)
    ensures TableLater(t, v)
  {
    forall id | id in t.heap ensures Advances(t, v, id) {
      assert Advances(t, u, id) && Advances(u, v, id);
      LaterTransitive(t.heap[id], u.heap[id], v.heap[id]);
    }
  }

  lemma SameHeapIsLater(t: Table, u: Table)
    requires u.heap == t.heap && t.now <= u.now && (!t.accepting ==> !u.accepting)
    ensures TableLater(t, u)
  {
    forall id | id in t.heap ensures Advances(t, u, id) {
      LaterItself(t.heap[id]);
    }
  }

  /** One job's record is replaced by a later one. */
  lemma OneJobIsLater(t: Table, u: Table, id: nat, j: Job)
    requires id in t.heap && Later(t.heap[id], j) && u.heap == t.heap[id := j]
    requires u.now == t.now && u.accepting == t.accepting
    ensures TableLater(t, u)
  {
    assert u.heap.Keys == t.heap.Keys;
    SameKeysSameSize(t.heap, u.heap);
    forall x | x in t.heap ensures Advances(t, u, x) {
      LaterItself(t.heap[x]);
    }
  }

  lemma ApplyStores(t: Table, c: Config, id: nat, j: Job)
    requires id in t.heap
    ensures var u := Apply(t, c, id, j);
            u.heap == t.heap[id := j] && u.now == t.now && u.accepting == t.accepting && u.leases == t.leases
  {
    var aged := Aged(t, c, id, j);
    assert Apply(t, c, id, j) == aged || Apply(t, c, id, j) == Prune(aged, c);
  }

  lemma StepJobIsLater(t: Table, c: Config, id: nat, a: Action)
    requires JobsOk(t) && id in t.heap && CanStep(t.heap[id], a)
    ensures TableLater(t, StepJob(t, c, id, a))
  {
    assert JobInv(t, id);
    StepIsLater(t.heap[id], a, t.now);
    ApplyStores(t, c, id, Step(t.heap[id], a, t.now));
    OneJobIsLater(t, StepJob(t, c, id, a), id, Step(t.heap[id], a, t.now));
  }

  lemma ReserveIsLater(t: Table, r: Request)
    requires Wf(t) && t.accepting
    ensures TableLater(t, Reserve(t, r)) && RequestsStay(t, Reserve(t, r))
  {
    var u, id := Reserve(t, r), |t.heap|;
    assert u.heap.Keys == t.heap.Keys + {id};
    assert |u.heap| == |u.heap.Keys| && |t.heap| == |t.heap.Keys|;
    forall x | x in t.heap ensures Advances(t, u, x) {
      LaterItself(t.heap[x]);
    }
  }

  lemma ShutIsLater(t: Table)
    requires Wf(t)
    ensures TableLater(t, Shut(t))
  {
    var u := Shut(t);
    assert u.heap.Keys == t.heap.Keys;
    SameKeysSameSize(t.heap, u.heap);
    forall id | id in t.heap ensures Advances(t, u, id) {
      assert JobOk(t, id);
      LaterItself(t.heap[id]);
    }
  }

  lemma WaitIsLater(t: Table, c: Config, id: nat, f: nat, after: nat)
    requires RunnerInvariants.Inv(t, c) && CanTable(t, WaitOn(id, f, after))
    ensures TableLater(t, TableStep(t, c, WaitOn(id, f, after)))
  {
    var s := Prune(t, c);
    SameHeapIsLater(t, s);
    PruneKeepsInv(t, c);
    if id in s.heap && id in s.retained {
      StepJobIsLater(s, c, id, WaitForUpdate(f, after));
      TableLaterTransitive(t, s, StepJob(s, c, id, WaitForUpdate(f, after)));
    }
  }

  lemma LeaseIsLater(t: Table, c: Config, a: TableAction)
    requires CanTable(t, a) && (a.AttachReader? || a.DetachReader?)
    ensures TableLater(t, TableStep(t, c, a))
  {
    var u := TableStep(t, c, a);
    if a.AttachReader? && MayAttach(Prune(t, c), c, a.id) {
      OneJobIsLater(t, u, a.id, t.heap[a.id].(readerCount := t.heap[a.id].readerCount + 1));
    } else if a.DetachReader? && t.leases[a.l].active && t.heap[t.leases[a.l].job].readerCount > 0 {
      var id := t.leases[a.l].job;
      OneJobIsLater(t, u, id, t.heap[id].(readerCount := t.heap[id].readerCount - 1));
    } else {
      SameHeapIsLater(t, u);
    }
  }

  lemma TableStepIsLater(t: Table, c: Config, a: TableAction)
    requires RunnerInvariants.Inv(t, c) && CanTable(t, a)
    ensures TableLater(t, TableStep(t, c, a))
  {
    match a
    case Tick(now) => SameHeapIsLater(t, TableStep(t, c, a));
    case JobStep(id, b) => StepJobIsLater(t, c, id, b);
    case CancelJob(id, exited) =>
      if id in t.heap && id in t.retained {
        StepJobIsLater(t, c, id, Cancel(exited));
      } else {
        SameHeapIsLater(t, t);
      }
    case WaitOn(id, f, after) => WaitIsLater(t, c, id, f, after);
    case Look => SameHeapIsLater(t, Prune(t, c));
    case AttachReader(_, _) => LeaseIsLater(t, c, a);
    case DetachReader(_) => LeaseIsLater(t, c, a);
    case ShutDownAll => ShutIsLater(t);
  }

  /** Once admission has stopped no reservation is ever taken again. */
  lemma LaterStaysClosed(t: Table, u: Table)
    requires !t.accepting && TableLater(t, u)
    ensures Live(u) <= Live(t)
  {
    forall id | id in Live(u) ensures id in Live(t) {
      assert Advances(t, u, id);
    }
  }

  lemma LaterKeepsRequests(t: Table, u: Table)
    requires TableLater(t, u)
    ensures RequestsStay(t, u)
  {
    forall id | id in t.heap ensures id in u.heap && u.heap[id].request == t.heap[id].request {
      assert Advances(t, u, id);
    }
  }

  lemma TableStepStaysClosed(t: Table, c: Config, a: TableAction)
    requires RunnerInvariants.Inv(t, c) && Closed(t) && CanTable(t, a)
    ensures Closed(TableStep(t, c, a))
  {
    if a.ShutDownAll? {
      ShutReleasesAll(t, c);
    } else {
      TableStepIsLater(t, c, a);
      StepKeepsAccepting(t, c, a);
      if !t.accepting { LaterStaysClosed(t, TableStep(t, c, a)); }
    }
  }

  lemma StepKeepsAccepting(t: Table, c: Config, a: TableAction)
    requires CanTable(t, a) && !a.ShutDownAll?
    ensures TableStep(t, c, a).accepting == t.accepting
  {
    match a
    case JobStep(id, b) => ApplyStores(t, c, id, Step(t.heap[id], b, t.now));
    case CancelJob(id, exited) =>
      if id in t.heap && id in t.retained { ApplyStores(t, c, id, Step(t.heap[id], Cancel(exited), t.now)); }
    case WaitOn(id, f, after) =>
      var s := Prune(t, c);
      if id in s.heap && id in s.retained { ApplyStores(s, c, id, Step(s.heap[id], WaitForUpdate(f, after), s.now)); }
    case _ =>
  }

  // ---- every step of the system ----

  lemma OnTableKeepsInv(s: State, cfg: Config, a: TableAction)
    requires SysInv(s, cfg) && CanTable(s.table, a)
    ensures SysInv(SysStep(s, cfg, OnTable(a)), cfg)
    ensures TableLater(s.table, SysStep(s, cfg, OnTable(a)).table)
  {
    var u := TableStep(s.table, cfg, a);
    TableStepKeepsInv(s.table, cfg, a);
    TableStepIsLater(s.table, cfg, a);
    TableStepStaysClosed(s.table, cfg, a);
    LaterKeepsRequests(s.table, u);
    TableKeepsCharges(s, u);
    TableKeepsResults(s, u);
  }

  lemma SettleKeepsInv(s: State, cfg: Config, c: nat, result: Result)
    requires SysInv(s, cfg) && c in s.calls && !s.calls[c].phase.Done? && !result.Admitted?
    requires result.Repeated? ==> JobIs(s.table, result.jobId, s.calls[c].request)
    ensures SysInv(Settle(s, c, result), cfg)
  {
    SettleKeepsCharges(s, c, result);
    CallKeepsResults(s, Settle(s, c, result), c);
  }

  /** A call that begins uncharged. */
  lemma BegunKeepsInv(s: State, cfg: Config, c: nat, r: Request, supplied: bool)
    requires SysInv(s, cfg) && c !in s.calls
    ensures SysInv(s.(calls := s.calls[c := Call(r, supplied, None, Permitted)]), cfg)
  {
    BegunKeepsCharges(s, c, Call(r, supplied, None, Permitted));
    CallKeepsResults(s, s.(calls := s.calls[c := Call(r, supplied, None, Permitted)]), c);
  }

  lemma ProbingKeepsInv(s: State, cfg: Config, c: nat)
    requires SysInv(s, cfg) && c in s.calls && s.calls[c].phase.Permitted?
    ensures SysInv(s.(calls := s.calls[c := s.calls[c].(phase := Probing)]), cfg)
  {
    var t := s.(calls := s.calls[c := s.calls[c].(phase := Probing)]);
    CallKeepsResults(s, t, c);
    forall d | d in t.calls ensures CallOk(t, d) {
      assert CallOk(s, d);
    }
    forall k | k in t.owner ensures OwnerOk(t, k) {
      assert OwnerOk(s, k);
    }
  }

  lemma FirstCheckKeepsInv(s: State, cfg: Config, c: nat, bad: bool)
    requires SysInv(s, cfg) && c in s.calls && s.calls[c].phase.Permitted?
    ensures SysInv(FirstCheck(s, c, bad), cfg) && FirstCheck(s, c, bad).table == s.table
  {
    var early := Early(s.table, s.calls[c].request);
    EarlyIsRight(s.table, cfg, s.calls[c].request);
    if early.Some? {
      SettleKeepsInv(s, cfg, c, early.value);
    } else if bad {
      SettleKeepsInv(s, cfg, c, Refused(BadRequest));
    } else {
      ProbingKeepsInv(s, cfg, c);
    }
  }

  lemma PreflightKeepsInv(s: State, cfg: Config, c: nat, r: Request, rate: Rate)
    requires SysInv(s, cfg) && c !in s.calls && (rate.Charge? ==> rate.token !in s.owner)
    ensures SysInv(PreflightCheck(s, cfg, c, r, rate), cfg) && PreflightCheck(s, cfg, c, r, rate).table == s.table
  {
    var refused := Permission(s.table, cfg, r, rate).0;
    var begun := s.(calls := s.calls[c := Call(r, true, None, Permitted)]);
    BegunKeepsInv(s, cfg, c, r, true);
    EarlyIsRight(s.table, cfg, r);
    if refused.Some? {
      SettleKeepsInv(begun, cfg, c, refused.value);
    } else {
      ChargedKeepsCharges(begun, c, rate);
      CallKeepsResults(begun, Charged(begun, c, rate), c);
    }
  }

  /** No other call without a permit holds a charge. */
  ghost predicate OthersUncharged(s: State, c: nat) {
    forall d :: d in s.calls && d != c && !s.calls[d].supplied && !s.calls[d].phase.Done? ==> s.calls[d].charge.None?
  }

  lemma DoneKeepsUncharged(s: State, t: State, c: nat)
    requires OthersUncharged(s, c) && c in t.calls && t.calls[c].phase.Done? && t.calls == s.calls[c := t.calls[c]]
    ensures BareUncharged(t)
  {
  }

  /** With room, no entry for the key and admission open, the fresh job keeps the tables right. */
  lemma GrantKeepsTable(s: State, cfg: Config, c: nat)
    requires RunnerInvariants.Inv(s.table, cfg) && c in s.calls && s.table.accepting
    requires Early(s.table, s.calls[c].request).None? && Full(s.table, cfg, s.calls[c].request.lesson).None?
    ensures RunnerInvariants.Inv(Grant(s, c).table, cfg) && Closed(Grant(s, c).table)
    ensures TableLater(s.table, Grant(s, c).table) && |s.table.heap| !in s.table.heap
  {
    ReserveKeepsInv(s.table, cfg, s.calls[c].request);
    ReserveIsLater(s.table, s.calls[c].request);
  }

  lemma GrantKeepsCalls(s: State, c: nat)
    requires ChargesOk(s) && ResultsOk(s) && OthersUncharged(s, c)
    requires c in s.calls && !s.calls[c].phase.Done? && |s.table.heap| !in s.table.heap
    ensures ChargesOk(Grant(s, c)) && ResultsOk(Grant(s, c)) && BareUncharged(Grant(s, c))
  {
    GrantKeepsCharges(s, c);
    GrantKeepsResults(s, c);
    DoneKeepsUncharged(s, Grant(s, c), c);
  }

  lemma GrantKeepsInv(s: State, cfg: Config, c: nat)
    requires RunnerInvariants.Inv(s.table, cfg) && ChargesOk(s) && ResultsOk(s) && OthersUncharged(s, c)
    requires c in s.calls && !s.calls[c].phase.Done? && s.table.accepting
    requires Early(s.table, s.calls[c].request).None? && Full(s.table, cfg, s.calls[c].request.lesson).None?
    ensures SysInv(Grant(s, c), cfg) && TableLater(s.table, Grant(s, c).table)
  {
    GrantKeepsTable(s, cfg, c);
    GrantKeepsCalls(s, c);
  }

  lemma SecondCheckKeepsInv(s: State, cfg: Config, c: nat, rate: Rate)
    requires SysInv(s, cfg) && CanSys(s, AdmitSecond(c, rate))
    ensures SysInv(SecondCheck(s, cfg, c, rate), cfg) && TableLater(s.table, SecondCheck(s, cfg, c, rate).table)
  {
    var r := s.calls[c].request;
    var early := Early(s.table, r);
    EarlyIsRight(s.table, cfg, r);
    SameHeapIsLater(s.table, s.table);
    if early.Some? {
      SettleKeepsInv(s, cfg, c, early.value);
    } else if rate.Denied? {
      SettleKeepsInv(s, cfg, c, Refused(RateLimited));
    } else {
      ChargeThenDecide(s, cfg, c, rate);
    }
  }

  /** The charge taken under the lock is the call's until the same section settles or grants. */
  lemma ChargedIsReady(s: State, cfg: Config, c: nat, rate: Rate)
    requires SysInv(s, cfg) && CanSys(s, AdmitSecond(c, rate)) && !rate.Denied?
    ensures var t := Charged(s, c, rate);
            && t.table == s.table && c in t.calls && t.calls[c].phase.Probing?
            && t.calls[c].request == s.calls[c].request
            && ChargesOk(t) && ResultsOk(t) && OthersUncharged(t, c)
  {
    if rate.Charge? {
      ChargedKeepsCharges(s, c, rate);
      CallKeepsResults(s, Charged(s, c, rate), c);
    }
  }

  lemma FullSettles(t: State, cfg: Config, c: nat, result: Result)
    requires RunnerInvariants.Inv(t.table, cfg) && Closed(t.table)
    requires ChargesOk(t) && ResultsOk(t) && OthersUncharged(t, c)
    requires c in t.calls && t.calls[c].phase.Probing? && result.Refused?
    ensures SysInv(Settle(t, c, result), cfg)
  {
    SettleKeepsCharges(t, c, result);
    CallKeepsResults(t, Settle(t, c, result), c);
    DoneKeepsUncharged(t, Settle(t, c, result), c);
  }

  lemma ChargeThenDecide(s: State, cfg: Config, c: nat, rate: Rate)
    requires SysInv(s, cfg) && CanSys(s, AdmitSecond(c, rate)) && !rate.Denied?
    requires Early(s.table, s.calls[c].request).None?
    ensures var t := Charged(s, c, rate);
            var full := Full(t.table, cfg, t.calls[c].request.lesson);
            var u := if full.Some? then Settle(t, c, full.value) else Grant(t, c);
            SysInv(u, cfg) && TableLater(s.table, u.table)
  {
    var t := Charged(s, c, rate);
    EarlyIsRight(s.table, cfg, s.calls[c].request);
    ChargedIsReady(s, cfg, c, rate);
    var full := Full(t.table, cfg, t.calls[c].request.lesson);
    if full.Some? {
      SameHeapIsLater(s.table, s.table);
      FullSettles(t, cfg, c, full.value);
    } else {
      GrantKeepsInv(t, cfg, c);
    }
  }

  lemma SysStepKeepsInv(s: State, cfg: Config, a: SysAction)
    requires SysInv(s, cfg) && CanSys(s, a)
    ensures SysInv(SysStep(s, cfg, a), cfg) && TableLater(s.table, SysStep(s, cfg, a).table)
  {
    if a.OnTable? {
      OnTableKeepsInv(s, cfg, a.a);
    } else if a.HealthFails? {
      SettleKeepsInv(s, cfg, a.c, Refused(Unhealthy));
      SameHeapIsLater(s.table, s.table);
    } else {
      OnTableKeepsInv(s, cfg, Look);
      var p := Pruned(s, cfg);
      match a
      case Preflight(c, r, rate) => PreflightKeepsInv(p, cfg, c, r, rate);
      case AdmitWithPermit(c, bad) => FirstCheckKeepsInv(p, cfg, c, bad);
      case AdmitBare(c, r, bad) =>
        BegunKeepsInv(p, cfg, c, r, false);
        FirstCheckKeepsInv(p.(calls := s.calls[c := Call(r, false, None, Permitted)]), cfg, c, bad);
      case AdmitSecond(c, rate) =>
        SecondCheckKeepsInv(p, cfg, c, rate);
        TableLaterTransitive(s.table, p.table, SecondCheck(p, cfg, c, rate).table);
    }
  }

  // ---- runs ----

  ghost predicate Follows(s: State, t: State, cfg: Config) {
    exists a :: CanSys(s, a) && t == SysStep(s, cfg, a)
  }

  ghost predicate IsRun(run: seq<State>, cfg: Config) {
    && run != [] && run[0] == Start(run[0].table.now)
    && forall i {:trigger StepsAt(run, cfg, i)} :: StepsAt(run, cfg, i)
  }

  ghost predicate StepsAt(run: seq<State>, cfg: Config, i: int) {
    0 <= i < |run| - 1 ==> Follows(run[i], run[i + 1], cfg)
  }

  lemma FollowKeeps(s: State, t: State, cfg: Config)
    requires SysInv(s, cfg) && Follows(s, t, cfg)
    ensures SysInv(t, cfg) && TableLater(s.table, t.table)
  {
    var a :| CanSys(s, a) && t == SysStep(s, cfg, a);
    SysStepKeepsInv(s, cfg, a);
  }

  lemma EmptyIsFine(now: int, cfg: Config)
    ensures RunnerInvariants.Inv(EmptyTable(now), cfg) && Closed(EmptyTable(now))
  {
    var t := EmptyTable(now);
    assert t.heap.Keys == {} && |t.heap| == |t.heap.Keys|;
    assert Wf(t) && JobsOk(t) && IndexOk(t, cfg);
    assert Live(t) == {};
    forall lesson ensures LessonOk(t, cfg, lesson) {
      assert LiveIn(t, lesson) == {};
    }
    assert BeingRead(t) == {} && Terminal(t) == {};
  }

  lemma {:induction false} RunReaches(run: seq<State>, cfg: Config, k: nat)
    requires IsRun(run, cfg) && k < |run|
    ensures SysInv(run[k], cfg)
  {
    if k == 0 {
      EmptyIsFine(run[0].table.now, cfg);
    } else {
      RunReaches(run, cfg, k - 1);
      assert StepsAt(run, cfg, k - 1);
      FollowKeeps(run[k - 1], run[k], cfg);
    }
  }

  lemma RunMovesOnce(run: seq<State>, cfg: Config, k: nat)
    requires IsRun(run, cfg) && k + 1 < |run|
    ensures TableLater(run[k].table, run[k + 1].table)
  {
    RunReaches(run, cfg, k);
    assert StepsAt(run, cfg, k);
    FollowKeeps(run[k], run[k + 1], cfg);
  }

  lemma {:induction false} RunMovesOn(run: seq<State>, cfg: Config, i: nat, k: nat)
    requires IsRun(run, cfg) && i <= k < |run|
    ensures TableLater(run[i].table, run[k].table)
    decreases k
  {
    if i == k {
      SameHeapIsLater(run[i].table, run[i].table);
    } else {
      RunMovesOn(run, cfg, i, k - 1);
      RunMovesOnce(run, cfg, k - 1);
      TableLaterTransitive(run[i].table, run[k - 1].table, run[k].table);
    }
  }

  // ---- the theorems ----

  /** Capacity: the counters count exactly the jobs whose termination has not begun, within the limits,
      without zero entries. */
  lemma CapacityIsExact(run: seq<State>, cfg: Config, k: nat, lesson: nat)
    requires IsRun(run, cfg) && k < |run|
    ensures var t := run[k].table;
            && t.activeTotal == |Live(t)| <= cfg.globalLimit
            && ActiveIn(t, lesson) == |LiveIn(t, lesson)| <= cfg.perLessonLimit
            && (lesson in t.activeByLesson ==> t.activeByLesson[lesson] > 0)
            && forall id :: id in t.heap ==> (t.heap[id].reservationReleased <==> id !in Live(t))
  {
    RunReaches(run, cfg, k);
    var t := run[k].table;
    assert LessonOk(t, cfg, lesson);
    forall id | id in t.heap ensures t.heap[id].reservationReleased <==> id !in Live(t) {
      assert JobInv(t, id);
    }
  }

  /** After `shutdown`'s locked section there is no reservation, no new job and no live job, for ever. */
  lemma ShutdownIsFinal(run: seq<State>, cfg: Config, i: nat, k: nat)
    requires IsRun(run, cfg) && i <= k < |run| && !run[i].table.accepting
    ensures run[k].table.activeTotal == 0 && !run[k].table.accepting
    ensures run[k].table.heap.Keys == run[i].table.heap.Keys
    ensures forall id :: id in run[k].table.heap ==> run[k].table.heap[id].cause.Some?
  {
    RunReaches(run, cfg, k);
    RunMovesOn(run, cfg, i, k);
    forall id | id in run[k].table.heap ensures run[k].table.heap[id].cause.Some? {
      assert id !in Live(run[k].table);
    }
  }

  /** At most once per window: of two jobs admitted under one lesson and key, the first had finished at
      least the retention time before the second was created. */
  lemma AtMostOncePerWindow(run: seq<State>, cfg: Config, k: nat, a: nat, b: nat)
    requires IsRun(run, cfg) && k < |run| && a < b
    requires a in run[k].table.heap && b in run[k].table.heap
    requires KeyOf(run[k].table.heap[a].request) == KeyOf(run[k].table.heap[b].request)
    ensures run[k].table.heap[a].state.Finished? && run[k].table.heap[a].finishedAt.Some?
    ensures run[k].table.heap[a].finishedAt.value + cfg.retention <= run[k].table.heap[b].createdAt
  {
    RunReaches(run, cfg, k);
    assert Apart(run[k].table, cfg, a, b) && JobOk(run[k].table, a);
  }

  /** Every retained job is the one its index entry names, and the entry repeats its request. */
  lemma RetainedJobsAreNamed(run: seq<State>, cfg: Config, k: nat, id: nat)
    requires IsRun(run, cfg) && k < |run| && id in run[k].table.retained
    ensures var t := run[k].table;
            && id in t.heap
            && var r := t.heap[id].request;
            && KeyOf(r) in t.index && t.index[KeyOf(r)].jobId == id
            && t.index[KeyOf(r)].block == r.block && t.index[KeyOf(r)].rev == r.rev
            && ReplayLocked(t, r) == Replayed(id)
  {
    RunReaches(run, cfg, k);
    var t := run[k].table;
    assert NameOk(t, cfg, id) && EntryOk(t, cfg, KeyOf(t.heap[id].request));
  }

  /** A finished call's answer is about its own request, and no two calls were given the same fresh job. */
  lemma AnswersAreRight(run: seq<State>, cfg: Config, k: nat, c: nat, d: nat)
    requires IsRun(run, cfg) && k < |run| && c in run[k].calls && d in run[k].calls && c != d
    requires run[k].calls[c].phase.Done? && !run[k].calls[c].phase.result.Refused?
    ensures JobIs(run[k].table, run[k].calls[c].phase.result.jobId, run[k].calls[c].request)
    ensures run[k].calls[c].phase.result.Admitted? && run[k].calls[d].phase.Done? ==>
              run[k].calls[d].phase.result != run[k].calls[c].phase.result
  {
    RunReaches(run, cfg, k);
    assert ResultOk(run[k], c) && Distinct(run[k], c, d);
  }

  /** The early answers in terms of the jobs: a repeat names the retained job of this very request, a
      conflict means the key belongs to another, a job gone that its own job is no longer held. */
  lemma EarlyIsExact(t: Table, cfg: Config, r: Request)
    requires RunnerInvariants.Inv(t, cfg)
    ensures var early, k := Early(t, r), KeyOf(r);
            && (forall id :: early == Some(Repeated(id)) <==> id in t.retained && JobIs(t, id, r))
            && (early == Some(Refused(KeyConflict)) <==> k in t.index && !JobIs(t, t.index[k].jobId, r))
            && (early == Some(Refused(JobGone)) <==>
                  k in t.index && JobIs(t, t.index[k].jobId, r) && t.index[k].jobId !in t.retained)
            && (early == Some(Refused(ShuttingDown)) <==> k !in t.index && !t.accepting)
            && (early.None? <==> k !in t.index && t.accepting)
            && (early.Some? ==> early.value.Repeated?
                                || early.value in {Refused(KeyConflict), Refused(JobGone), Refused(ShuttingDown)})
  {
    var k := KeyOf(r);
    if k in t.index {
      assert EntryOk(t, cfg, k);
    }
    forall id | id in t.retained && JobIs(t, id, r)
      ensures k in t.index && t.index[k].jobId == id
    {
      assert NameOk(t, cfg, id);
    }
  }

  /** The capacity answers in terms of the jobs whose termination has not begun. */
  lemma FullIsExact(t: Table, cfg: Config, lesson: nat)
    requires RunnerInvariants.Inv(t, cfg)
    ensures var full := Full(t, cfg, lesson);
            && (full == Some(Refused(LessonBusy)) <==> |LiveIn(t, lesson)| >= cfg.perLessonLimit)
            && (full == Some(Refused(RunnerBusy)) <==>
                  |LiveIn(t, lesson)| < cfg.perLessonLimit && |Live(t)| >= cfg.globalLimit)
            && (full.None? <==> |LiveIn(t, lesson)| < cfg.perLessonLimit && |Live(t)| < cfg.globalLimit)
  {
    assert LessonOk(t, cfg, lesson);
  }

  /** The key is free and admission is open. */
  ghost predicate Free(t: Table, r: Request) {
    KeyOf(r) !in t.index && t.accepting
  }

  ghost predicate RoomInLesson(t: Table, cfg: Config, lesson: nat) {
    |LiveIn(t, lesson)| < cfg.perLessonLimit
  }

  ghost predicate RoomInTotal(t: Table, cfg: Config) {
    |Live(t)| < cfg.globalLimit
  }

  /** Exactly when `admit` answers what, in terms of the jobs and not of the counters: a repeat names the
      retained job of this very request, a conflict means the key belongs to another, and a fresh job needs
      a free key, open admission, a rate slot and room in the lesson and in total. */
  lemma AdmissionIsExact(t: Table, cfg: Config, r: Request, charge: Option<nat>, rate: Rate)
    requires RunnerInvariants.Inv(t, cfg)
    ensures var answer := Decide(t, cfg, r, charge, rate).0;
            var k := KeyOf(r);
            var free := Free(t, r) && !rate.Denied?;
            && (forall id :: answer == Repeated(id) <==> id in t.retained && JobIs(t, id, r))
            && (answer == Refused(KeyConflict) <==> k in t.index && !JobIs(t, t.index[k].jobId, r))
            && (answer == Refused(JobGone) <==>
                  k in t.index && JobIs(t, t.index[k].jobId, r) && t.index[k].jobId !in t.retained)
            && (answer == Refused(ShuttingDown) <==> k !in t.index && !t.accepting)
            && (answer == Refused(RateLimited) <==> Free(t, r) && rate.Denied?)
            && (answer.Admitted? <==> free && RoomInLesson(t, cfg, r.lesson) && RoomInTotal(t, cfg))
            && (answer == Refused(LessonBusy) <==> free && !RoomInLesson(t, cfg, r.lesson))
            && (answer == Refused(RunnerBusy) <==>
                  free && RoomInLesson(t, cfg, r.lesson) && !RoomInTotal(t, cfg))
  {
    EarlyIsExact(t, cfg, r);
    FullIsExact(t, cfg, r.lesson);
  }

  /** Exactly when `preflight` answers what, in the same terms: the limits come before the rate hook here, and
      a permit holds exactly the hook's charge. */
  lemma PreflightIsExact(t: Table, cfg: Config, r: Request, rate: Rate)
    requires RunnerInvariants.Inv(t, cfg)
    ensures var (refused, charge) := Permission(t, cfg, r, rate);
            var k := KeyOf(r);
            var room := RoomInLesson(t, cfg, r.lesson) && RoomInTotal(t, cfg);
            && (refused.None? <==> Free(t, r) && room && !rate.Denied?)
            && (forall id :: refused == Some(Repeated(id)) <==> id in t.retained && JobIs(t, id, r))
            && (refused == Some(Refused(KeyConflict)) <==> k in t.index && !JobIs(t, t.index[k].jobId, r))
            && (refused == Some(Refused(JobGone)) <==>
                  k in t.index && JobIs(t, t.index[k].jobId, r) && t.index[k].jobId !in t.retained)
            && (refused == Some(Refused(ShuttingDown)) <==> k !in t.index && !t.accepting)
            && (refused == Some(Refused(LessonBusy)) <==> Free(t, r) && !RoomInLesson(t, cfg, r.lesson))
            && (refused == Some(Refused(RunnerBusy)) <==>
                  Free(t, r) && RoomInLesson(t, cfg, r.lesson) && !RoomInTotal(t, cfg))
            && (refused == Some(Refused(RateLimited)) <==> Free(t, r) && room && rate.Denied?)
            && (forall token: nat :: charge == Some(token) <==> refused.None? && rate == Charge(token))
  {
    EarlyIsExact(t, cfg, r);
    FullIsExact(t, cfg, r.lesson);
  }

  /** What the step of `preflight` does to a running service. */
  lemma PreflightStep(s: State, cfg: Config, c: nat, r: Request, rate: Rate)
    requires SysInv(s, cfg) && CanSys(s, Preflight(c, r, rate))
    ensures var t := SysStep(s, cfg, Preflight(c, r, rate));
            && t.table == Prune(s.table, cfg) && c in t.calls
            && (t.calls[c].phase.Permitted? <==>
                  && Free(t.table, r) && !rate.Denied?
                  && RoomInLesson(t.table, cfg, r.lesson) && RoomInTotal(t.table, cfg))
            && (t.calls[c].phase.Permitted? ==>
                  && t.calls[c].charge == (if rate.Charge? then Some(rate.token) else None)
                  && t.owner == if rate.Charge? then s.owner[rate.token := ByCall(c)] else s.owner)
            && (!t.calls[c].phase.Permitted? ==>
                  t.calls[c].phase.Done? && t.calls[c].charge == None && t.owner == s.owner)
            && t.refunds == s.refunds
  {
    var p := Pruned(s, cfg);
    PruneKeepsInv(s.table, cfg);
    PreflightIsExact(p.table, cfg, r, rate);
    PreflightPermits(p, cfg, c, r, rate);
  }

  /** What the first step of `admit` does to a running service, with a permit or without. */
  lemma FirstStep(s: State, cfg: Config, c: nat, r: Request, bad: bool)
    requires SysInv(s, cfg)
    ensures CanSys(s, AdmitWithPermit(c, bad)) ==>
              GoesOn(SysStep(s, cfg, AdmitWithPermit(c, bad)), s, cfg, c, s.calls[c].request, s.calls[c].charge, bad)
    ensures CanSys(s, AdmitBare(c, r, bad)) ==>
              GoesOn(SysStep(s, cfg, AdmitBare(c, r, bad)), s, cfg, c, r, None, bad)
  {
    var p := Pruned(s, cfg);
    PruneKeepsInv(s.table, cfg);
    if CanSys(s, AdmitWithPermit(c, bad)) {
      FirstCheckDecides(p, c, bad);
      EarlyIsExact(p.table, cfg, s.calls[c].request);
    }
    if CanSys(s, AdmitBare(c, r, bad)) {
      FirstCheckDecides(p.(calls := s.calls[c := Call(r, false, None, Permitted)]), c, bad);
      EarlyIsExact(p.table, cfg, r);
    }
  }

  /** The call goes on to the health probe if its key is free, admission is open and the request is well formed,
      with the charge it has; otherwise it ends and gives that back. */
  ghost predicate GoesOn(t: State, s: State, cfg: Config, c: nat, r: Request, charge: Option<nat>, bad: bool) {
    && t.table == Prune(s.table, cfg) && c in t.calls && t.calls[c].request == r && t.calls[c].charge == charge
    && (t.calls[c].phase.Probing? <==> Free(t.table, r) && !bad)
    && (t.calls[c].phase.Probing? || t.calls[c].phase.Done?)
    && (t.calls[c].phase == Done(Refused(BadRequest)) <==> Free(t.table, r) && bad)
    && t.refunds == s.refunds + if t.calls[c].phase.Done? && charge.Some? then [charge.value] else []
  }

  /** What the second step does: the call is admitted exactly with a free key, open admission, a rate slot and
      room, and then the tables get its job. */
  lemma SecondStep(s: State, cfg: Config, c: nat, rate: Rate)
    requires SysInv(s, cfg) && CanSys(s, AdmitSecond(c, rate))
    ensures var t, p, r := SysStep(s, cfg, AdmitSecond(c, rate)), Prune(s.table, cfg), s.calls[c].request;
            && t.calls[c].phase == Done(Decide(p, cfg, r, s.calls[c].charge, rate).0)
            && (t.calls[c].phase.result.Admitted? <==>
                  Free(p, r) && !rate.Denied? && RoomInLesson(p, cfg, r.lesson) && RoomInTotal(p, cfg))
            && t.table == if t.calls[c].phase.result.Admitted? then Reserve(p, r) else p
  {
    PruneKeepsInv(s.table, cfg);
    AdmissionIsExact(Prune(s.table, cfg), cfg, s.calls[c].request, s.calls[c].charge, rate);
    SecondCheckDecides(Pruned(s, cfg), cfg, c, rate);
  }

  /** And a call that ends otherwise gives its charge back, the one just taken included. */
  lemma SecondStepRefunds(s: State, cfg: Config, c: nat, rate: Rate)
    requires CanSys(s, AdmitSecond(c, rate))
    ensures var t, held := SysStep(s, cfg, AdmitSecond(c, rate)), Held(s.calls[c].charge, rate);
            && t.calls[c].phase.Done?
            && (t.calls[c].phase.result.Admitted? ==> t.refunds == s.refunds)
            && (t.calls[c].phase.result in {Refused(LessonBusy), Refused(RunnerBusy)} ==>
                  t.refunds == s.refunds + if held.Some? then [held.value] else [])
  {
    SecondCheckDecides(Pruned(s, cfg), cfg, c, rate);
    assert s.refunds + [] == s.refunds;
  }

  /** Charge conservation: every charge ever handed out is held by exactly one call in progress, or kept by
      exactly one fresh job, or refunded exactly once; and a call that ended holds none. */
  lemma ChargesAreConserved(run: seq<State>, cfg: Config, k: nat, token: nat)
    requires IsRun(run, cfg) && k < |run| && token in run[k].owner
    ensures var s := run[k];
            match s.owner[token]
            case ByCall(c) =>
              && (forall d :: d in s.calls && !s.calls[d].phase.Done? && s.calls[d].charge == Some(token) <==> d == c)
              && (forall id :: id in s.kept ==> s.kept[id] != token) && token !in s.refunds
            case ByJob(id) =>
              && (forall x :: x in s.kept && s.kept[x] == token <==> x == id)
              && (forall d :: d in s.calls && s.calls[d].charge == Some(token) ==>
                                s.calls[d].phase == Done(Admitted(id)))
              && token !in s.refunds
            case Refunded =>
              && multiset(s.refunds)[token] == 1 && (forall id :: id in s.kept ==> s.kept[id] != token)
              && (forall d :: d in s.calls && s.calls[d].charge == Some(token) ==>
                                s.calls[d].phase.Done? && !s.calls[d].phase.result.Admitted?)
  {
    RunReaches(run, cfg, k);
    var s := run[k];
    assert OwnerOk(s, token);
    forall d | d in s.calls && s.calls[d].charge == Some(token)
      ensures CallOk(s, d)
    {
    }
    if token in s.refunds { DistinctCountsOnce(s.refunds, token); }
  }

  lemma {:induction false} DistinctCountsOnce(log: seq<nat>, x: nat)
    requires forall i, j :: 0 <= i < j < |log| ==> log[i] != log[j]
    ensures multiset(log)[x] == if x in log then 1 else 0
  {
    if log != [] {
      var last := |log| - 1;
      assert log == log[..last] + [log[last]];
      DistinctCountsOnce(log[..last], x);
    }
  }

  /** Retention under leases: a job's reader count is its live leases, at most two; a leased job is never
      pruned; and no more finished jobs are held than the limit. */
  lemma RetentionIsBounded(run: seq<State>, cfg: Config, k: nat, l: nat)
    requires IsRun(run, cfg) && k < |run|
    ensures |Terminal(run[k].table)| <= cfg.maxTerminal
    ensures l in run[k].table.leases && run[k].table.leases[l].active ==>
              var id := run[k].table.leases[l].job;
              && id in run[k].table.retained && id in run[k].table.heap
              && run[k].table.heap[id].readerCount == |LeasesOn(run[k].table, id)|
              && 1 <= run[k].table.heap[id].readerCount <= 2
  {
    RunReaches(run, cfg, k);
    var t := run[k].table;
    if l in t.leases && t.leases[l].active {
      LiveLeaseIsCounted(t, l);
      assert CountOk(t, t.leases[l].job) && JobOk(t, t.leases[l].job);
    }
  }

  /** Inside the service a job's step is the step of its own protocol at the service's clock, and touches no
      other job. */
  lemma StepsAreTheJobs(t: Table, cfg: Config, id: nat, b: Action)
    requires CanTable(t, JobStep(id, b))
    ensures TableStep(t, cfg, JobStep(id, b)).heap == t.heap[id := Step(t.heap[id], b, t.now)]
  {
    ApplyStores(t, cfg, id, Step(t.heap[id], b, t.now));
  }

  /** Shutting down ends admission and begins the termination of every job held that has not finished; those
      whose termination had begun keep their cause. */
  lemma ShutdownStopsAll(t: Table, cfg: Config)
    requires RunnerInvariants.Inv(t, cfg)
    ensures var u := TableStep(t, cfg, ShutDownAll);
            && !u.accepting && u.activeTotal == 0 && u.activeByLesson == map[] && Live(u) == {}
            && u.heap.Keys == t.heap.Keys && u.retained == t.retained && u.index == t.index
            && forall id :: id in t.retained && id in t.heap && !t.heap[id].state.Finished? ==>
                 u.heap[id].cause == if t.heap[id].cause.Some? then t.heap[id].cause else Some(ShutDown)
  {
    ShutReleasesAll(t, cfg);
  }

  /** The clock alone. */
  lemma TickMovesTheClock(t: Table, cfg: Config, now: int)
    requires t.now <= now
    ensures CanTable(t, Tick(now)) && TableStep(t, cfg, Tick(now)) == t.(now := now)
  {
  }

  /** Pruning drops a job nobody reads only if it expired or newer ones fill every free place. */
  lemma PruningKeepsNewest(t: Table, cfg: Config, dropped: nat)
    requires dropped in t.retained && dropped !in Prune(t, cfg).retained
    ensures IsTerminal(t, dropped) && t.heap[dropped].readerCount == 0
    ensures IsExpired(t, cfg, dropped)
            || (&& |Kept(t, cfg)| == Slots(t, cfg) && Kept(t, cfg) <= Prune(t, cfg).retained
                && forall x :: x in Kept(t, cfg) ==> Older(FinishTimes(t), dropped, x))
  {
    if !IsExpired(t, cfg, dropped) {
      assert dropped in Unexpired(t, cfg) - Kept(t, cfg);
      NewestFillSlots(FinishTimes(t), Unexpired(t, cfg), Slots(t, cfg));
      if |Unexpired(t, cfg)| <= Slots(t, cfg) {
        SubsetSize(Kept(t, cfg), Unexpired(t, cfg));
      }
      forall x | x in Kept(t, cfg) ensures Older(FinishTimes(t), dropped, x) {
        NewestAreNewer(FinishTimes(t), Unexpired(t, cfg), Slots(t, cfg), x, dropped);
      }
    }
  }

  /** Inside the service, too, every job lives by its own protocol, and only moves on. */
  lemma JobsLiveByTheirProtocol(run: seq<State>, cfg: Config, i: nat, k: nat, id: nat)
    requires IsRun(run, cfg) && i <= k < |run| && id in run[i].table.heap
    ensures id in run[k].table.heap
    ensures RunnerJob.Inv(run[k].table.heap[id]) && Later(run[i].table.heap[id], run[k].table.heap[id])
  {
    RunReaches(run, cfg, k);
    RunMovesOn(run, cfg, i, k);
    assert Advances(run[i].table, run[k].table, id);
    assert JobInv(run[k].table, id);
  }
}

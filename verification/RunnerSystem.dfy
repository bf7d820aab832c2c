/** The whole runner service as a step system: two-phase admission with its rate charges, interleaved with
    every job, reader, cancellation, the clock and shutdown. */
module RunnerSystem {
  import opened Options
  import opened RunnerJob
  import opened RunnerTable
  import opened RunnerInvariants

  // ---- steps that only touch the tables ----

  datatype TableAction =
    | Tick(now: int)
    | JobStep(id: nat, a: Action)
    | CancelJob(id: nat, exited: bool)
    | WaitOn(id: nat, f: nat, after: nat)
    | Look
    | AttachReader(l: nat, id: nat)
    | DetachReader(l: nat)
    | ShutDownAll

  predicate CanTable(t: Table, a: TableAction) {
    match a
    case Tick(now) => t.now <= now
    case JobStep(id, b) =>
      id in t.heap && CanStep(t.heap[id], b) && !b.Cancel? && !b.Shutdown? && !b.WaitForUpdate?
    case WaitOn(id, f, after) => id in t.heap ==> f !in t.heap[id].log.futures
    case AttachReader(l, id) => l !in t.leases
    case DetachReader(l) => l in t.leases && t.leases[l].job in t.heap
    case _ => true
  }

  function TableStep(t: Table, c: Config, a: TableAction): Table
    requires CanTable(t, a)
  {
    match a
    case Tick(now) => t.(now := now)
    case JobStep(id, b) => StepJob(t, c, id, b)
    case CancelJob(id, exited) => if id in t.heap && id in t.retained then StepJob(t, c, id, Cancel(exited)) else t
    case WaitOn(id, f, after) =>
      var s := Prune(t, c);
      if id in s.heap && id in s.retained then StepJob(s, c, id, WaitForUpdate(f, after)) else s
    case Look => Prune(t, c)
    case AttachReader(l, id) =>
      var s := Prune(t, c);
      if MayAttach(s, c, id) then Attach(s, c, l, id) else s
    case DetachReader(l) => Detach(t, c, l)
    case ShutDownAll => Shut(t)
  }

  lemma TableStepKeepsInv(t: Table, c: Config, a: TableAction)
    requires RunnerInvariants.Inv(t, c) && CanTable(t, a)
    ensures RunnerInvariants.Inv(TableStep(t, c, a), c)
  {
    match a
    case Tick(now) => ClockKeepsInv(t, c, now, t.accepting);
    case JobStep(id, b) => StepJobKeepsInv(t, c, id, b);
    case CancelJob(id, exited) =>
      if id in t.heap && id in t.retained { StepJobKeepsInv(t, c, id, Cancel(exited)); }
    case WaitOn(id, f, after) =>
      PruneKeepsInv(t, c);
      var s := Prune(t, c);
      if id in s.heap && id in s.retained { StepJobKeepsInv(s, c, id, WaitForUpdate(f, after)); }
    case Look => PruneKeepsInv(t, c);
    case AttachReader(l, id) =>
      PruneKeepsInv(t, c);
      var s := Prune(t, c);
      if MayAttach(s, c, id) { AttachKeepsInv(s, c, l, id); }
    case DetachReader(l) => DetachKeepsInv(t, c, l);
    case ShutDownAll => ShutReleasesAll(t, c);
  }

  // ---- admission ----

  datatype Refusal =
    KeyConflict | JobGone | ShuttingDown | BadRequest | Unhealthy | RateLimited | LessonBusy | RunnerBusy

  datatype Result = Admitted(jobId: nat) | Repeated(jobId: nat) | Refused(why: Refusal)

  /** `Permitted` is a caller of `preflight` holding its permit; `Probing` is `admit` while health runs. */
  datatype Phase = Permitted | Probing | Done(result: Result)

  datatype Call = Call(request: Request, supplied: bool, charge: Option<nat>, phase: Phase)

  /** What the rate hook answers: it is absent, it refuses, or it hands out a fresh charge. */
  datatype Rate = NoHook | Denied | Charge(token: nat)

  /** Who answers for a charge that was handed out. */
  datatype Owner = ByCall(c: nat) | ByJob(id: nat) | Refunded

  /** `refunds` logs the refund hook's calls, `kept` the charges fresh jobs were admitted with. */
  datatype State = State(
    table: Table, calls: map<nat, Call>, owner: map<nat, Owner>, refunds: seq<nat>, kept: map<nat, nat>)

  datatype SysAction =
    | OnTable(a: TableAction)
    | Preflight(c: nat, request: Request, rate: Rate)
    | AdmitWithPermit(c: nat, bad: bool)
    | AdmitBare(c: nat, request: Request, bad: bool)
    | HealthFails(c: nat)
    | AdmitSecond(c: nat, rate: Rate)

  /** The checks every phase repeats, in their order. */
  function Early(t: Table, r: Request): Option<Result> {
    match ReplayLocked(t, r)
    case Conflict => Some(Refused(KeyConflict))
    case Missing => Some(Refused(JobGone))
    case Replayed(id) => Some(Repeated(id))
    case Absent => if !t.accepting then Some(Refused(ShuttingDown)) else None
  }

  function Full(t: Table, c: Config, lesson: nat): Option<Result> {
    if LessonFull(t, c, lesson) then Some(Refused(LessonBusy))
    else if GlobalFull(t, c) then Some(Refused(RunnerBusy))
    else None
  }

  predicate CanSys(s: State, a: SysAction) {
    match a
    case OnTable(b) => CanTable(s.table, b)
    case Preflight(c, r, rate) => c !in s.calls && (rate.Charge? ==> rate.token !in s.owner)
    case AdmitWithPermit(c, bad) => c in s.calls && s.calls[c].phase.Permitted?
    case AdmitBare(c, r, bad) => c !in s.calls
    case HealthFails(c) => c in s.calls && s.calls[c].phase.Probing?
    case AdmitSecond(c, rate) =>
      && c in s.calls && s.calls[c].phase.Probing?
      && (s.calls[c].supplied ==> rate.NoHook?)
      && (rate.Charge? ==> rate.token !in s.owner)
  }

  /** A call ends without a new job: what it was charged is refunded. */
  function Settle(s: State, c: nat, result: Result): State
    requires c in s.calls
  {
    var call := s.calls[c];
    var done := s.(calls := s.calls[c := call.(phase := Done(result))]);
    if call.charge.None? then done
    else done.(refunds := s.refunds + [call.charge.value], owner := s.owner[call.charge.value := Refunded])
  }

  function Charged(s: State, c: nat, rate: Rate): State
    requires c in s.calls
  {
    if rate.Charge? then
      s.(calls := s.calls[c := s.calls[c].(charge := Some(rate.token))], owner := s.owner[rate.token := ByCall(c)])
    else s
  }

  /** The fresh admission itself: the charge now belongs to the new job. */
  function Grant(s: State, c: nat): State
    requires c in s.calls
  {
    var call := s.calls[c];
    var id := |s.table.heap|;
    var done := s.(table := Reserve(s.table, call.request), calls := s.calls[c := call.(phase := Done(Admitted(id)))]);
    if call.charge.None? then done
    else done.(kept := s.kept[id := call.charge.value], owner := s.owner[call.charge.value := ByJob(id)])
  }

  /** The first locked section of `admit`, after pruning. */
  function FirstCheck(s: State, c: nat, bad: bool): State
    requires c in s.calls
  {
    var early := Early(s.table, s.calls[c].request);
    if early.Some? then Settle(s, c, early.value)
    else if bad then Settle(s, c, Refused(BadRequest))
    else s.(calls := s.calls[c := s.calls[c].(phase := Probing)])
  }

  /** The second locked section of `admit`, after pruning. */
  function SecondCheck(s: State, cfg: Config, c: nat, rate: Rate): State
    requires c in s.calls
  {
    var early := Early(s.table, s.calls[c].request);
    if early.Some? then Settle(s, c, early.value)
    else if rate.Denied? then Settle(s, c, Refused(RateLimited))
    else
      var t := Charged(s, c, rate);
      var full := Full(t.table, cfg, t.calls[c].request.lesson);
      if full.Some? then Settle(t, c, full.value) else Grant(t, c)
  }

  /** The charge a call holds when its second section decides: its permit's, or one taken there. */
  function Held(charge: Option<nat>, rate: Rate): Option<nat> {
    if rate.Charge? then Some(rate.token) else charge
  }

  /** What the second section answers, and the charge it gives back. */
  function Decide(t: Table, cfg: Config, r: Request, charge: Option<nat>, rate: Rate): (Result, Option<nat>) {
    var early := Early(t, r);
    if early.Some? then (early.value, charge)
    else if rate.Denied? then (Refused(RateLimited), charge)
    else
      var full := Full(t, cfg, r.lesson);
      if full.Some? then (full.value, Held(charge, rate)) else (Admitted(|t.heap|), None)
  }

  /** The second section does to the system exactly what that answer says. */
  lemma SecondCheckDecides(s: State, cfg: Config, c: nat, rate: Rate)
    requires c in s.calls
    ensures var call := s.calls[c];
            var answer := Decide(s.table, cfg, call.request, call.charge, rate);
            var t := SecondCheck(s, cfg, c, rate);
            && t.calls[c].phase == Done(answer.0)
            && t.table == (if answer.0.Admitted? then Reserve(s.table, call.request) else s.table)
            && t.refunds == s.refunds + (if answer.1.Some? then [answer.1.value] else [])
            && (answer.0.Admitted? && Held(call.charge, rate).Some? ==>
                  |s.table.heap| in t.kept && t.kept[|s.table.heap|] == Held(call.charge, rate).value)
  {
    match ReplayLocked(s.table, s.calls[c].request)
    case _ => assert s.refunds + [] == s.refunds;
  }

  /** What `preflight` answers after pruning: None is a permit, with the charge it holds. */
  function Permission(t: Table, cfg: Config, r: Request, rate: Rate): (Option<Result>, Option<nat>) {
    var early := Early(t, r);
    var full := Full(t, cfg, r.lesson);
    if early.Some? then (early, None)
    else if full.Some? then (full, None)
    else if rate.Denied? then (Some(Refused(RateLimited)), None)
    else (None, Held(None, rate))
  }

  function PreflightCheck(s: State, cfg: Config, c: nat, r: Request, rate: Rate): State {
    var begun := s.(calls := s.calls[c := Call(r, true, None, Permitted)]);
    var refused := Permission(s.table, cfg, r, rate).0;
    if refused.Some? then Settle(begun, c, refused.value) else Charged(begun, c, rate)
  }

  /** The call ends with that answer, or holds a permit with that charge; nothing else changes. */
  lemma PreflightPermits(s: State, cfg: Config, c: nat, r: Request, rate: Rate)
    ensures var answer := Permission(s.table, cfg, r, rate);
            var t := PreflightCheck(s, cfg, c, r, rate);
            var phase := if answer.0.Some? then Done(answer.0.value) else Permitted;
            && t.table == s.table && t.refunds == s.refunds && t.kept == s.kept
            && t.calls == s.calls[c := Call(r, true, answer.1, phase)]
            && t.owner == if answer.1.Some? then s.owner[answer.1.value := ByCall(c)] else s.owner
  {
  }

  /** The first section of `admit` goes on to the health probe exactly without an early answer and with a
      well-formed request; otherwise it ends there and gives the permit's charge back. */
  lemma FirstCheckDecides(s: State, c: nat, bad: bool)
    requires c in s.calls
    ensures var call, t := s.calls[c], FirstCheck(s, c, bad);
            var early := Early(s.table, call.request);
            && t.table == s.table && t.kept == s.kept && t.calls.Keys == s.calls.Keys
            && t.calls[c] == call.(phase := t.calls[c].phase)
            && (t.calls[c].phase.Probing? <==> early.None? && !bad)
            && (t.calls[c].phase.Probing? ==> t.refunds == s.refunds && t.owner == s.owner)
            && (early.Some? ==> t.calls[c].phase == Done(early.value))
            && (early.None? && bad ==> t.calls[c].phase == Done(Refused(BadRequest)))
            && (!t.calls[c].phase.Probing? ==>
                  t.refunds == s.refunds + if call.charge.Some? then [call.charge.value] else [])
  {
    assert s.refunds + [] == s.refunds;
  }

  /** A failed probe ends the call and gives its charge back. */
  lemma FailedProbeRefunds(s: State, cfg: Config, c: nat)
    requires CanSys(s, HealthFails(c))
    ensures var t := SysStep(s, cfg, HealthFails(c));
            && t.table == s.table && t.calls[c].phase == Done(Refused(Unhealthy))
            && t.refunds == s.refunds + if s.calls[c].charge.Some? then [s.calls[c].charge.value] else []
  {
    assert s.refunds + [] == s.refunds;
  }

  function Pruned(s: State, cfg: Config): State {
    s.(table := Prune(s.table, cfg))
  }

  function SysStep(s: State, cfg: Config, a: SysAction): State
    requires CanSys(s, a)
  {
    match a
    case OnTable(b) => s.(table := TableStep(s.table, cfg, b))
    case Preflight(c, r, rate) => PreflightCheck(Pruned(s, cfg), cfg, c, r, rate)
    case AdmitWithPermit(c, bad) => FirstCheck(Pruned(s, cfg), c, bad)
    case AdmitBare(c, r, bad) =>
      FirstCheck(Pruned(s, cfg).(calls := s.calls[c := Call(r, false, None, Permitted)]), c, bad)
    case HealthFails(c) => Settle(s, c, Refused(Unhealthy))
    case AdmitSecond(c, rate) => SecondCheck(Pruned(s, cfg), cfg, c, rate)
  }

  function Start(now: int): State {
    State(EmptyTable(now), map[], map[], [], map[])
  }

  // ---- charges ----

  /** A call's charge is its own until it ends, and then its job's or refunded. */
  ghost predicate CallOk(s: State, c: nat)
    requires c in s.calls
  {
    var call := s.calls[c];
    && (call.charge.Some? ==>
          && call.charge.value in s.owner
          && s.owner[call.charge.value] ==
             (if !call.phase.Done? then ByCall(c)
              else if call.phase.result.Admitted? then ByJob(call.phase.result.jobId)
              else Refunded))
  }

  ghost predicate OwnerOk(s: State, k: nat)
    requires k in s.owner
  {
    match s.owner[k]
    case ByCall(c) => c in s.calls && s.calls[c].charge == Some(k) && !s.calls[c].phase.Done?
    case ByJob(id) => id in s.kept && s.kept[id] == k
    case Refunded => k in s.refunds
  }

  ghost predicate ChargesOk(s: State) {
    && (forall c {:trigger CallOk(s, c)} :: c in s.calls ==> CallOk(s, c))
    && (forall k {:trigger OwnerOk(s, k)} :: k in s.owner ==> OwnerOk(s, k))
    && (forall id :: id in s.kept ==> id < |s.table.heap| && s.kept[id] in s.owner && s.owner[s.kept[id]] == ByJob(id))
    && (forall i :: 0 <= i < |s.refunds| ==> s.refunds[i] in s.owner && s.owner[s.refunds[i]] == Refunded)
    && forall i, j :: 0 <= i < j < |s.refunds| ==> s.refunds[i] != s.refunds[j]
  }

  /** Whatever a call did besides, it ends: its charge goes back, once. */
  lemma SettleKeepsCharges(s: State, c: nat, result: Result)
    requires ChargesOk(s) && c in s.calls && !s.calls[c].phase.Done? && !result.Admitted?
    ensures ChargesOk(Settle(s, c, result))
  {
    var t := Settle(s, c, result);
    assert CallOk(s, c);
    forall d | d in t.calls ensures CallOk(t, d) {
      assert CallOk(s, d);
    }
    forall k | k in t.owner ensures OwnerOk(t, k) {
      assert OwnerOk(s, k);
    }
  }

  lemma ChargedKeepsCharges(s: State, c: nat, rate: Rate)
    requires ChargesOk(s) && c in s.calls && s.calls[c].charge.None? && !s.calls[c].phase.Done?
    requires rate.Charge? ==> rate.token !in s.owner
    ensures ChargesOk(Charged(s, c, rate))
  {
    var t := Charged(s, c, rate);
    forall d | d in t.calls ensures CallOk(t, d) {
      assert CallOk(s, d);
    }
    forall k | k in t.owner ensures OwnerOk(t, k) {
      if k in s.owner { assert OwnerOk(s, k); }
    }
  }

  lemma GrantKeepsCall(s: State, c: nat, d: nat)
    requires c in s.calls && !s.calls[c].phase.Done? && CallOk(s, c) && d in s.calls && CallOk(s, d)
    ensures CallOk(Grant(s, c), d)
  {
  }

  lemma GrantKeepsOwner(s: State, c: nat, k: nat)
    requires c in s.calls && !s.calls[c].phase.Done? && CallOk(s, c) && k in s.owner && OwnerOk(s, k)
    requires |s.table.heap| !in s.kept
    ensures OwnerOk(Grant(s, c), k)
  {
  }

  lemma GrantKeepsCharges(s: State, c: nat)
    requires ChargesOk(s) && c in s.calls && !s.calls[c].phase.Done? && |s.table.heap| !in s.table.heap
    ensures ChargesOk(Grant(s, c))
  {
    var t := Grant(s, c);
    var id := |s.table.heap|;
    assert |t.table.heap| == id + 1;
    assert CallOk(s, c) && id !in s.kept;
    forall d | d in t.calls ensures CallOk(t, d) {
      assert CallOk(s, d);
      GrantKeepsCall(s, c, d);
    }
    forall k | k in t.owner ensures OwnerOk(t, k) {
      assert OwnerOk(s, k);
      GrantKeepsOwner(s, c, k);
    }
  }

  /** A call that has just begun has no charge yet. */
  lemma BegunKeepsCharges(s: State, c: nat, call: Call)
    requires ChargesOk(s) && c !in s.calls && call.charge.None?
    ensures ChargesOk(s.(calls := s.calls[c := call]))
  {
    var t := s.(calls := s.calls[c := call]);
    forall d | d in t.calls ensures CallOk(t, d) {
      if d != c { assert CallOk(s, d); }
    }
    forall k | k in t.owner ensures OwnerOk(t, k) {
      assert OwnerOk(s, k);
    }
  }

  lemma TableKeepsCharges(s: State, table: Table)
    requires ChargesOk(s) && |s.table.heap| <= |table.heap|
    ensures ChargesOk(s.(table := table))
  {
    var t := s.(table := table);
    forall d | d in t.calls ensures CallOk(t, d) {
      assert CallOk(s, d);
    }
    forall k | k in t.owner ensures OwnerOk(t, k) {
      assert OwnerOk(s, k);
    }
  }

  /** Without a permit nothing is charged before the second section. */
  ghost predicate BareUncharged(s: State) {
    forall c :: c in s.calls && !s.calls[c].supplied && !s.calls[c].phase.Done? ==> s.calls[c].charge.None?
  }

  // ---- results ----

  /** A fresh admission made exactly the job it names; a repeat names the job of the same request. */
  ghost predicate ResultOk(s: State, c: nat)
    requires c in s.calls
  {
    var call := s.calls[c];
    && (call.phase.Done? && call.phase.result.Admitted? ==> JobIs(s.table, call.phase.result.jobId, call.request))
    && (call.phase.Done? && call.phase.result.Repeated? ==> JobIs(s.table, call.phase.result.jobId, call.request))
  }

  ghost predicate JobIs(t: Table, id: nat, r: Request) {
    id in t.heap && t.heap[id].request == r
  }

  ghost predicate Distinct(s: State, c: nat, d: nat)
    requires c in s.calls && d in s.calls
  {
    s.calls[c].phase.Done? && s.calls[d].phase.Done?
    && s.calls[c].phase.result.Admitted? && s.calls[d].phase.result.Admitted? ==>
      s.calls[c].phase.result.jobId != s.calls[d].phase.result.jobId
  }

  ghost predicate ResultsOk(s: State) {
    && (forall c {:trigger ResultOk(s, c)} :: c in s.calls ==> ResultOk(s, c))
    && forall c, d {:trigger Distinct(s, c, d)} :: c in s.calls && d in s.calls && c != d ==> Distinct(s, c, d)
  }

  ghost predicate RequestsStay(t: Table, u: Table) {
    forall id :: id in t.heap ==> id in u.heap && u.heap[id].request == t.heap[id].request
  }

  lemma TableKeepsResults(s: State, table: Table)
    requires ResultsOk(s) && RequestsStay(s.table, table)
    ensures ResultsOk(s.(table := table))
  {
    var t := s.(table := table);
    forall c | c in t.calls ensures ResultOk(t, c) {
      assert ResultOk(s, c);
    }
    forall c, d | c in t.calls && d in t.calls && c != d ensures Distinct(t, c, d) {
      assert Distinct(s, c, d);
    }
  }

  /** Any step of a call that does not admit. */
  lemma CallKeepsResults(s: State, t: State, c: nat)
    requires ResultsOk(s) && t.table == s.table && c in t.calls && t.calls == s.calls[c := t.calls[c]]
    requires t.calls[c].phase.Done? ==>
               !t.calls[c].phase.result.Admitted?
               && (t.calls[c].phase.result.Repeated? ==>
                     JobIs(s.table, t.calls[c].phase.result.jobId, t.calls[c].request))
    ensures ResultsOk(t)
  {
    forall d | d in t.calls ensures ResultOk(t, d) {
      if d != c { assert ResultOk(s, d); }
    }
    forall d, e | d in t.calls && e in t.calls && d != e ensures Distinct(t, d, e) {
      if d != c && e != c { assert Distinct(s, d, e); }
    }
  }

  lemma GrantKeepsDistinct(s: State, c: nat, d: nat, e: nat)
    requires c in s.calls && |s.table.heap| !in s.table.heap
    requires d in s.calls && e in s.calls && d != e && ResultOk(s, d) && ResultOk(s, e) && Distinct(s, d, e)
    ensures Distinct(Grant(s, c), d, e)
  {
  }

  lemma GrantKeepsResult(s: State, c: nat, d: nat)
    requires c in s.calls && |s.table.heap| !in s.table.heap && d in s.calls && ResultOk(s, d)
    ensures ResultOk(Grant(s, c), d)
  {
  }

  lemma GrantKeepsResults(s: State, c: nat)
    requires ResultsOk(s) && c in s.calls && |s.table.heap| !in s.table.heap
    ensures ResultsOk(Grant(s, c))
  {
    var t := Grant(s, c);
    forall d | d in t.calls ensures ResultOk(t, d) {
      assert ResultOk(s, d);
      GrantKeepsResult(s, c, d);
    }
    forall d, e | d in t.calls && e in t.calls && d != e ensures Distinct(t, d, e) {
      assert Distinct(s, d, e) && ResultOk(s, d) && ResultOk(s, e);
      GrantKeepsDistinct(s, c, d, e);
    }
  }

  /** What the early checks answer is true of the tables. */
  lemma EarlyIsRight(t: Table, cfg: Config, r: Request)
    requires IndexOk(t, cfg)
    ensures var early := Early(t, r);
            && (early.Some? ==> !early.value.Admitted?)
            && (early.Some? && early.value.Repeated? ==> JobIs(t, early.value.jobId, r))
            && (early.None? ==> t.accepting && ReplayLocked(t, r).Absent?)
  {
    if KeyOf(r) in t.index { assert EntryOk(t, cfg, KeyOf(r)); }
  }

  // ---- every step ----

  ghost predicate Closed(t: Table) {
    !t.accepting ==> Live(t) == {}
  }

  ghost predicate SysInv(s: State, cfg: Config) {
    && RunnerInvariants.Inv(s.table, cfg) && Closed(s.table)
    && ChargesOk(s) && BareUncharged(s) && ResultsOk(s)
  }

  /** How the tables may differ later: jobs stay, only move on, and once admission has stopped none is added. */
  ghost predicate TableLater(t: Table, u: Table) {
    && (forall id {:trigger Advances(t, u, id)} :: id in t.heap ==> Advances(t, u, id))
    && |t.heap| <= |u.heap| && t.now <= u.now
    && (!t.accepting ==> !u.accepting && u.heap.Keys == t.heap.Keys)
  }

  ghost predicate Advances(t: Table, u: Table, id: nat)
    requires id in t.heap
  {
    id in u.heap && Later(t.heap[id], u.heap[id])
  }
}

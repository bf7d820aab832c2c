/** `record_attempt` as concurrent calls: early replay check, gate, re-check, locked check, transaction.
    Calls of several processes interleave freely at every point where the code holds no transaction. */
module AttemptRecording {
  import opened Options

  /** A well-formed submission; the lesson comes from the route. */
  datatype Submission = Submission(lesson: nat, key: string, question: string, page: string)

  datatype DbRow = DbRow(lesson: nat, key: string, question: string, page: string, attemptId: nat, eventUuid: nat)

  datatype Event = AttemptEvent(uuid: nat, lesson: nat, attemptId: nat) | OtherEvent(uuid: nat)

  datatype Refusal = RateLimited | ManifestRefused | UnknownQuestion | AnswerTooLarge | StorageError

  datatype Result = Recorded(attemptId: nat) | Duplicate(attemptId: nat) | Conflict | Refused(why: Refusal)

  /** Where a call stands. `Rechecking` follows a refusal, `Collided` a lost insert race. */
  datatype Phase = Begun | Fresh | Rechecking(why: Refusal) | Gated | Cleared | Collided | Done(result: Result)

  datatype Budget = Uncharged | Charged | Refunded

  /** `known` is the row its key already had when the call began. */
  datatype Call = Call(sub: Submission, phase: Phase, budget: Budget, known: Option<DbRow>)

  datatype State = State(rows: seq<DbRow>, events: seq<Event>, uuids: set<nat>, calls: map<nat, Call>)

  datatype Action =
    | Begin(c: nat, sub: Submission)
    | EarlyCheck(c: nat)
    | Gate(c: nat, refusal: Option<Refusal>)
    | Recheck(c: nat)
    | LockedCheck(c: nat, tooLarge: bool)
    | Commit(c: nat, attemptId: nat, eventUuid: nat)
    | CommitFails(c: nat)
    | AnswerCollision(c: nat)
    | AppendOther(uuid: nat)

  predicate Matches(row: DbRow, sub: Submission) {
    row.lesson == sub.lesson && row.key == sub.key
  }

  /** SELECT * ... WHERE lesson_id = ? AND idempotency_key = ?. */
  function Find(rows: seq<DbRow>, sub: Submission): (r: Option<DbRow>)
    ensures r.Some? ==> r.value in rows && Matches(r.value, sub)
    ensures r.None? ==> forall row :: row in rows ==> !Matches(row, sub)
  {
    if rows == [] then None
    else if Matches(rows[0], sub) then Some(rows[0])
    else Find(rows[1..], sub)
  }

  /** `_replay_or_conflict`: what a call whose key is taken is told. */
  function Answer(row: DbRow, sub: Submission): Result {
    if row.question == sub.question && row.page == sub.page then Duplicate(row.attemptId) else Conflict
  }

  function Refund(b: Budget): Budget {
    if b.Charged? then Refunded else b
  }

  /** Finishes a call whose key has a row; anything charged is returned. */
  function Resolve(call: Call, row: DbRow): Call {
    call.(phase := Done(Answer(row, call.sub)), budget := Refund(call.budget))
  }

  function AdvanceCheck(call: Call, found: Option<DbRow>, clear: Phase): Call {
    if found.Some? then Resolve(call, found.value) else call.(phase := clear)
  }

  /** One atomic step of one call, or of somebody else writing to the ledger. */
  function Step(s: State, a: Action): State {
    match a
    case Begin(c, sub) =>
      if c in s.calls then s
      else s.(calls := s.calls[c := Call(sub, Begun, Uncharged, Find(s.rows, sub))])
    case EarlyCheck(c) =>
      if c !in s.calls || !s.calls[c].phase.Begun? then s
      else s.(calls := s.calls[c := AdvanceCheck(s.calls[c], Find(s.rows, s.calls[c].sub), Fresh)])
    case Gate(c, refusal) =>
      if c !in s.calls || !s.calls[c].phase.Fresh? then s
      else
        var call := s.calls[c];
        var budget := if refusal == Some(RateLimited) then Uncharged else Charged;
        var next := if refusal.Some? then Rechecking(refusal.value) else Gated;
        s.(calls := s.calls[c := call.(phase := next, budget := budget)])
    case Recheck(c) =>
      if c !in s.calls || !s.calls[c].phase.Rechecking? then s
      else
        var call := s.calls[c];
        s.(calls := s.calls[c := AdvanceCheck(call, Find(s.rows, call.sub), Done(Refused(call.phase.why)))])
    case LockedCheck(c, tooLarge) =>
      if c !in s.calls || !s.calls[c].phase.Gated? then s
      else
        var call := s.calls[c];
        s.(calls := s.calls[c := AdvanceCheck(call, Find(s.rows, call.sub),
          if tooLarge then Done(Refused(AnswerTooLarge)) else Cleared)])
    case Commit(c, attemptId, eventUuid) =>
      if c !in s.calls || !s.calls[c].phase.Cleared? then s
      else if attemptId in s.uuids || eventUuid in s.uuids || attemptId == eventUuid then s
      else
        var call := s.calls[c];
        if Find(s.rows, call.sub).Some? then   // UNIQUE(lesson_id, idempotency_key) rolls the transaction back
          s.(calls := s.calls[c := call.(phase := Collided)])
        else
          State(
            s.rows + [DbRow(call.sub.lesson, call.sub.key, call.sub.question, call.sub.page, attemptId, eventUuid)],
            s.events + [AttemptEvent(eventUuid, call.sub.lesson, attemptId)],
            s.uuids + {attemptId, eventUuid},
            s.calls[c := call.(phase := Done(Recorded(attemptId)))])
    case CommitFails(c) =>
      if c !in s.calls || !s.calls[c].phase.Cleared? then s
      else s.(calls := s.calls[c := s.calls[c].(phase := Done(Refused(StorageError)))])
    case AnswerCollision(c) =>
      if c !in s.calls || !s.calls[c].phase.Collided? then s
      else
        var call := s.calls[c];
        s.(calls := s.calls[c := AdvanceCheck(call, Find(s.rows, call.sub), Done(Refused(StorageError)))])
    case AppendOther(uuid) =>
      if uuid in s.uuids then s
      else s.(events := s.events + [OtherEvent(uuid)], uuids := s.uuids + {uuid})
  }

  function Run(s: State, actions: seq<Action>): State {
    if actions == [] then s else Step(Run(s, actions[..|actions| - 1]), actions[|actions| - 1])
  }

  const EMPTY := State([], [], {}, map[])

  /** At most one row per lesson and key. */
  ghost predicate UniqueKeys(rows: seq<DbRow>) {
    forall i, j :: 0 <= i < j < |rows| ==> !(rows[i].lesson == rows[j].lesson && rows[i].key == rows[j].key)
  }

  ghost predicate UuidsMinted(s: State) {
    && (forall i :: 0 <= i < |s.rows| ==> s.rows[i].attemptId in s.uuids && s.rows[i].eventUuid in s.uuids)
    && (forall i :: 0 <= i < |s.events| ==> s.events[i].uuid in s.uuids)
    && (forall i, j :: 0 <= i < j < |s.events| ==> s.events[i].uuid != s.events[j].uuid)
    && forall i, j :: 0 <= i < j < |s.rows| ==> s.rows[i].attemptId != s.rows[j].attemptId
  }

  function EventOf(row: DbRow): Event {
    AttemptEvent(row.eventUuid, row.lesson, row.attemptId)
  }

  /** The attempt events of the ledger, in order, are the events of the rows, in order. */
  function AttemptEvents(events: seq<Event>): seq<Event> {
    if events == [] then []
    else
      var front := AttemptEvents(events[..|events| - 1]);
      if events[|events| - 1].AttemptEvent? then front + [events[|events| - 1]] else front
  }

  ghost predicate Paired(s: State) {
    AttemptEvents(s.events) == seq(|s.rows|, i requires 0 <= i < |s.rows| => EventOf(s.rows[i]))
  }

  /** A refused new write has used its slot, unless there was none to use. */
  predicate ChargedUnlessLimited(b: Budget, why: Refusal) {
    if why.RateLimited? then b.Uncharged? else b.Charged?
  }

  /** What a finished call was told is what the table says about its key. */
  ghost predicate ResultHolds(s: State, call: Call) {
    match call.phase
    case Done(Recorded(a)) =>
      && call.budget.Charged? && call.known.None?
      && exists row :: row in s.rows && Matches(row, call.sub) && row.attemptId == a && Answer(row, call.sub).Duplicate?
    case Done(Duplicate(a)) =>
      && !call.budget.Charged?
      && exists row :: row in s.rows && Matches(row, call.sub) && Answer(row, call.sub) == Duplicate(a)
    case Done(Conflict) =>
      && !call.budget.Charged?
      && exists row :: row in s.rows && Matches(row, call.sub) && Answer(row, call.sub) == Conflict
    case Done(Refused(why)) => call.known.None? && ChargedUnlessLimited(call.budget, why)
    case _ => true
  }

  /** A key known at the start stays known, and past the first check the call had none. */
  ghost predicate KnownHolds(s: State, call: Call) {
    && (call.known.Some? ==> call.known.value in s.rows && Matches(call.known.value, call.sub))
    && (call.known.Some? ==> call.phase.Begun? || call.phase == Done(Answer(call.known.value, call.sub)))
    && (call.phase.Begun? || call.phase.Fresh? ==> call.budget.Uncharged?)
    && (call.phase.Gated? || call.phase.Cleared? || call.phase.Collided? ==> call.budget.Charged?)
    && (call.phase.Rechecking? ==> ChargedUnlessLimited(call.budget, call.phase.why))
    && (call.phase.Collided? ==> Find(s.rows, call.sub).Some?)
  }

  /** Each row was recorded by at most one call. */
  ghost predicate OneRecorder(s: State) {
    forall c, d | c in s.calls && d in s.calls && s.calls[c].phase.Done? && s.calls[d].phase.Done? ::
      (s.calls[c].phase.result.Recorded? && s.calls[c].phase.result == s.calls[d].phase.result ==> c == d)
  }

  ghost predicate Inv(s: State) {
    && UniqueKeys(s.rows)
    && UuidsMinted(s)
    && Paired(s)
    && OneRecorder(s)
    && forall c :: c in s.calls ==> ResultHolds(s, s.calls[c]) && KnownHolds(s, s.calls[c])
  }

  /** With unique keys, a lookup finds the only row there is. */
  lemma FindIsUnique(rows: seq<DbRow>, sub: Submission, row: DbRow)
    requires UniqueKeys(rows) && row in rows && Matches(row, sub)
    ensures Find(rows, sub) == Some(row)
  {
    var found := Find(rows, sub).value;
    var i :| 0 <= i < |rows| && rows[i] == row;
    var j :| 0 <= j < |rows| && rows[j] == found;
    assert i == j;
  }

  /** Steps that only advance one call keep the invariant if that call's own part holds. */
  lemma UpdateCall(s: State, c: nat, call: Call)
    requires Inv(s)
    requires ResultHolds(s, call) && KnownHolds(s, call)
    requires !(call.phase.Done? && call.phase.result.Recorded?)
    ensures Inv(s.(calls := s.calls[c := call]))
  {
    var s' := s.(calls := s.calls[c := call]);
    forall d | d in s'.calls ensures ResultHolds(s', s'.calls[d]) && KnownHolds(s', s'.calls[d]) {
      assert d != c ==> s'.calls[d] == s.calls[d];
    }
  }

  lemma CheckKeepsCall(s: State, call: Call, clear: Phase)
    requires Inv(s) && KnownHolds(s, call) && !call.phase.Done?
    requires call.phase.Begun? || call.known.None?
    requires clear.Fresh? ==> call.budget.Uncharged?
    requires clear.Cleared? ==> call.budget.Charged?
    requires clear.Fresh? || clear.Cleared? || (clear.Done? && clear.result.Refused?)
    requires clear.Done? ==> ChargedUnlessLimited(call.budget, clear.result.why) || Find(s.rows, call.sub).Some?
    ensures ResultHolds(s, AdvanceCheck(call, Find(s.rows, call.sub), clear))
    ensures KnownHolds(s, AdvanceCheck(call, Find(s.rows, call.sub), clear))
  {
    if call.known.Some? {
      FindIsUnique(s.rows, call.sub, call.known.value);
    }
  }

  /** Appending rows and events only adds to what every call was told. */
  lemma GrowKeepsCalls(s: State, s': State, call: Call)
    requires s.rows <= s'.rows && ResultHolds(s, call) && KnownHolds(s, call)
    ensures ResultHolds(s', call) && KnownHolds(s', call)
  {
    assert forall row :: row in s.rows ==> row in s'.rows;
  }

  lemma CommitKeepsRows(s: State, row: DbRow)
    requires Inv(s)
    requires Find(s.rows, Submission(row.lesson, row.key, row.question, row.page)).None?
    requires row.attemptId !in s.uuids && row.eventUuid !in s.uuids && row.attemptId != row.eventUuid
    ensures var s' := s.(rows := s.rows + [row], events := s.events + [EventOf(row)],
                         uuids := s.uuids + {row.attemptId, row.eventUuid});
            UniqueKeys(s'.rows) && UuidsMinted(s') && Paired(s')
  {
    var s' := s.(rows := s.rows + [row], events := s.events + [EventOf(row)],
                 uuids := s.uuids + {row.attemptId, row.eventUuid});
    var sub := Submission(row.lesson, row.key, row.question, row.page);
    forall i | 0 <= i < |s.rows| ensures !Matches(s.rows[i], sub) {
      assert s.rows[i] in s.rows;
    }
    assert s'.events[..|s.events|] == s.events;
    assert AttemptEvents(s'.events) == AttemptEvents(s.events) + [EventOf(row)];
  }

  lemma CommitAnswers(s: State, s': State, call: Call, row: DbRow)
    requires ResultHolds(s, call) && KnownHolds(s, call) && call.phase.Cleared?
    requires s'.rows == s.rows + [row] && Matches(row, call.sub)
    requires row.question == call.sub.question && row.page == call.sub.page
    ensures ResultHolds(s', call.(phase := Done(Recorded(row.attemptId))))
    ensures KnownHolds(s', call.(phase := Done(Recorded(row.attemptId))))
  {
    assert s'.rows[|s.rows|] == row;
    assert row in s'.rows;
  }

  lemma CommitStep(s: State, c: nat, attemptId: nat, eventUuid: nat)
    requires Inv(s)
    ensures Inv(Step(s, Commit(c, attemptId, eventUuid)))
  {
    var s' := Step(s, Commit(c, attemptId, eventUuid));
    if s' != s {
      var call := s.calls[c];
      if Find(s.rows, call.sub).Some? {
        UpdateCall(s, c, call.(phase := Collided));
      } else {
        var row := DbRow(call.sub.lesson, call.sub.key, call.sub.question, call.sub.page, attemptId, eventUuid);
        assert Find(s.rows, Submission(row.lesson, row.key, row.question, row.page)) == Find(s.rows, call.sub);
        CommitKeepsRows(s, row);
        forall d | d in s'.calls ensures ResultHolds(s', s'.calls[d]) && KnownHolds(s', s'.calls[d]) {
          if d != c {
            GrowKeepsCalls(s, s', s.calls[d]);
          } else {
            CommitAnswers(s, s', s.calls[c], row);
          }
        }
        RecordersStayApart(s, s', c, attemptId);
      }
    }
  }

  lemma RecordersStayApart(s: State, s': State, c: nat, attemptId: nat)
    requires Inv(s) && c in s.calls && attemptId !in s.uuids && !s.calls[c].phase.Done?
    requires s'.calls == s.calls[c := s.calls[c].(phase := Done(Recorded(attemptId)))]
    ensures OneRecorder(s')
  {
    forall d | d in s.calls && s.calls[d].phase.Done? && s.calls[d].phase.result.Recorded?
      ensures s.calls[d].phase.result.attemptId != attemptId
    {
      assert ResultHolds(s, s.calls[d]);
    }
  }

  lemma LedgerKeepsRows(s: State, uuid: nat)
    requires UuidsMinted(s) && Paired(s) && uuid !in s.uuids
    ensures var s' := s.(events := s.events + [OtherEvent(uuid)], uuids := s.uuids + {uuid});
            UuidsMinted(s') && Paired(s')
  {
    var events := s.events + [OtherEvent(uuid)];
    assert events[..|s.events|] == s.events;
    assert AttemptEvents(events) == AttemptEvents(s.events);
  }

  lemma LedgerStep(s: State, uuid: nat)
    requires Inv(s)
    ensures Inv(Step(s, AppendOther(uuid)))
  {
    var s' := Step(s, AppendOther(uuid));
    if s' != s {
      LedgerKeepsRows(s, uuid);
      forall c | c in s'.calls ensures ResultHolds(s', s'.calls[c]) && KnownHolds(s', s'.calls[c]) {
        GrowKeepsCalls(s, s', s.calls[c]);
      }
    }
  }

  /** Every step of every call keeps the table, the ledger and all answers consistent. */
  lemma StepKeepsInv(s: State, a: Action)
    requires Inv(s)
    ensures Inv(Step(s, a))
  {
    if a.Commit? {
      CommitStep(s, a.c, a.attemptId, a.eventUuid);
    } else if a.AppendOther? {
      LedgerStep(s, a.uuid);
    } else if Step(s, a) != s {
      var call' := Step(s, a).calls[a.c];
      if a.EarlyCheck? {
        CheckKeepsCall(s, s.calls[a.c], Fresh);
      } else if a.Recheck? {
        CheckKeepsCall(s, s.calls[a.c], Done(Refused(s.calls[a.c].phase.why)));
      } else if a.LockedCheck? {
        CheckKeepsCall(s, s.calls[a.c], if a.tooLarge then Done(Refused(AnswerTooLarge)) else Cleared);
      } else if a.AnswerCollision? {
        CheckKeepsCall(s, s.calls[a.c], Done(Refused(StorageError)));
      }
      UpdateCall(s, a.c, call');
    }
  }

  /** Exactly-once recording, in every run. */
  lemma {:induction false} RunKeepsInv(actions: seq<Action>)
    ensures Inv(Run(EMPTY, actions))
  {
    if actions != [] {
      RunKeepsInv(actions[..|actions| - 1]);
      StepKeepsInv(Run(EMPTY, actions[..|actions| - 1]), actions[|actions| - 1]);
    }
  }

  /** A call whose key was committed before it began is told that attempt, or that the key is taken
      for another question or page; it is never refused and never consumes budget. */
  lemma KnownKeyIsAnswered(actions: seq<Action>, c: nat)
    requires var s := Run(EMPTY, actions); c in s.calls && s.calls[c].phase.Done? && s.calls[c].known.Some?
    ensures var call := Run(EMPTY, actions).calls[c];
      && call.phase.result == Answer(call.known.value, call.sub)
      && (forall a :: call.phase.result == Duplicate(a) <==>
            a == call.known.value.attemptId && SameTarget(call.known.value, call.sub))
      && (call.phase.result.Conflict? <==> !SameTarget(call.known.value, call.sub))
      && !call.budget.Charged?
  {
    RunKeepsInv(actions);
    var s := Run(EMPTY, actions);
    assert KnownHolds(s, s.calls[c]) && ResultHolds(s, s.calls[c]);
  }

  /** What a finished call was told is true of the table, in its columns: a recorded or replayed attempt has
      the call's own lesson, key, question and page, and a conflict's key went to another question or page. */
  lemma AnswersAreTrue(actions: seq<Action>, c: nat)
    requires var s := Run(EMPTY, actions); c in s.calls && s.calls[c].phase.Done?
    ensures var s := Run(EMPTY, actions);
      var sub := s.calls[c].sub;
      match s.calls[c].phase.result
      case Recorded(a) =>
        exists row :: row in s.rows && SameKey(row, sub) && row.attemptId == a && SameTarget(row, sub)
      case Duplicate(a) =>
        exists row :: row in s.rows && SameKey(row, sub) && row.attemptId == a && SameTarget(row, sub)
      case Conflict => exists row :: row in s.rows && SameKey(row, sub) && !SameTarget(row, sub)
      case Refused(_) => true
  {
    RunKeepsInv(actions);
    var s := Run(EMPTY, actions);
    assert ResultHolds(s, s.calls[c]);
  }

  /** The row's question and page are those submitted. */
  ghost predicate SameTarget(row: DbRow, sub: Submission) {
    row.question == sub.question && row.page == sub.page
  }

  ghost predicate SameKey(row: DbRow, sub: Submission) {
    row.lesson == sub.lesson && row.key == sub.key
  }

  /** Of all calls under one lesson and key at most one is told that it recorded the attempt. */
  lemma OneWinnerPerKey(actions: seq<Action>, c: nat, d: nat)
    requires var s := Run(EMPTY, actions);
      && c in s.calls && d in s.calls && s.calls[c].phase.Done? && s.calls[d].phase.Done?
      && s.calls[c].phase.result.Recorded? && s.calls[d].phase.result.Recorded?
      && s.calls[c].sub.lesson == s.calls[d].sub.lesson && s.calls[c].sub.key == s.calls[d].sub.key
    ensures c == d
  {
    RunKeepsInv(actions);
    var s := Run(EMPTY, actions);
    var v, w := s.calls[c], s.calls[d];
    assert ResultHolds(s, v) && ResultHolds(s, w);
    var row :| row in s.rows && Matches(row, v.sub) && row.attemptId == v.phase.result.attemptId;
    var other :| other in s.rows && Matches(other, w.sub) && other.attemptId == w.phase.result.attemptId;
    FindIsUnique(s.rows, v.sub, row);
    FindIsUnique(s.rows, v.sub, other);
  }

  /** The budget is spent by new writes only: a recorded attempt and a refused new write keep their slot,
      a replay or conflict holds none, and the limiter's own refusal took none. */
  lemma BudgetFollowsOutcome(actions: seq<Action>, c: nat)
    requires var s := Run(EMPTY, actions); c in s.calls && s.calls[c].phase.Done?
    ensures var call := Run(EMPTY, actions).calls[c];
      match call.phase.result
      case Recorded(_) => call.budget.Charged?
      case Duplicate(_) => !call.budget.Charged?
      case Conflict => !call.budget.Charged?
      case Refused(why) => ChargedUnlessLimited(call.budget, why)
  {
    RunKeepsInv(actions);
    var s := Run(EMPTY, actions);
    assert ResultHolds(s, s.calls[c]);
  }

  /** Losing the insert race never surfaces as a storage error: the winner's row is there to answer with. */
  lemma CollisionIsAnswered(actions: seq<Action>, c: nat)
    requires var s := Run(EMPTY, actions); c in s.calls && s.calls[c].phase.Collided?
    ensures var s := Run(EMPTY, actions);
      var call' := Step(s, AnswerCollision(c)).calls[c];
      call'.phase.Done? && (call'.phase.result.Duplicate? || call'.phase.result.Conflict?) && call'.budget.Refunded?
  {
    RunKeepsInv(actions);
    var s := Run(EMPTY, actions);
    assert KnownHolds(s, s.calls[c]);
  }

  /** A call refused at the gate was refused while no row for its key existed. */
  lemma RefusalIsCurrent(s: State, c: nat)
    requires c in s.calls && s.calls[c].phase.Rechecking?
    ensures var call' := Step(s, Recheck(c)).calls[c];
      call'.phase.Done? &&
      (call'.phase.result.Refused? <==> forall row :: row in s.rows ==> !Matches(row, s.calls[c].sub))
  {
  }

  /** What a call comes to when nothing happens between its steps: the answer of its key's row if there is one,
      the gate's refusal, the size refusal, or the new row with its event. */
  function Alone(s: State, c: nat, sub: Submission, refusal: Option<Refusal>, tooLarge: bool,
                 attemptId: nat, eventUuid: nat): State
  {
    var gated := Step(Step(Step(Step(s, Begin(c, sub)), EarlyCheck(c)), Gate(c, refusal)), Recheck(c));
    Step(Step(gated, LockedCheck(c, tooLarge)), Commit(c, attemptId, eventUuid))
  }

  lemma AloneIsExact(s: State, c: nat, sub: Submission, refusal: Option<Refusal>, tooLarge: bool,
                     attemptId: nat, eventUuid: nat)
    requires Inv(s) && c !in s.calls && {attemptId, eventUuid} !! s.uuids && attemptId != eventUuid
    ensures var t := Alone(s, c, sub, refusal, tooLarge, attemptId, eventUuid);
      var taken := exists row :: row in s.rows && SameKey(row, sub);
      && c in t.calls && t.calls[c].sub == sub && t.calls[c].phase.Done?
      && (forall row :: row in s.rows && SameKey(row, sub) ==>
            && t == s.(calls := t.calls) && t.calls[c].budget.Uncharged?
            && t.calls[c].phase.result == if SameTarget(row, sub) then Duplicate(row.attemptId) else Conflict)
      && (!taken && refusal.Some? ==>
            && t == s.(calls := t.calls) && t.calls[c].phase.result == Refused(refusal.value)
            && t.calls[c].budget == if refusal.value.RateLimited? then Uncharged else Charged)
      && (!taken && refusal.None? && tooLarge ==>
            && t == s.(calls := t.calls) && t.calls[c].phase.result == Refused(AnswerTooLarge)
            && t.calls[c].budget.Charged?)
      && (!taken && refusal.None? && !tooLarge ==>
            && t.calls[c].phase.result == Recorded(attemptId) && t.calls[c].budget.Charged?
            && t.rows == s.rows + [DbRow(sub.lesson, sub.key, sub.question, sub.page, attemptId, eventUuid)]
            && t.events == s.events + [AttemptEvent(eventUuid, sub.lesson, attemptId)])
  {
    forall row | row in s.rows && SameKey(row, sub) ensures Find(s.rows, sub) == Some(row) {
      FindIsUnique(s.rows, sub, row);
    }
  }

  /** A call past its checks whose key was taken meanwhile writes nothing, is answered from the row, and gets
      its slot back. */
  lemma LostRaceIsAnswered(s: State, c: nat, attemptId: nat, eventUuid: nat, row: DbRow)
    requires Inv(s) && c in s.calls && s.calls[c].phase.Cleared?
    requires {attemptId, eventUuid} !! s.uuids && attemptId != eventUuid
    requires row in s.rows && SameKey(row, s.calls[c].sub)
    ensures var t := Step(Step(s, Commit(c, attemptId, eventUuid)), AnswerCollision(c));
      && t == s.(calls := t.calls) && c in t.calls && t.calls[c].budget.Refunded?
      && t.calls[c].phase ==
         Done(if SameTarget(row, s.calls[c].sub) then Duplicate(row.attemptId) else Conflict)
  {
    FindIsUnique(s.rows, s.calls[c].sub, row);
    assert KnownHolds(s, s.calls[c]);
  }

  /** A transaction that fails otherwise, or a collision whose row cannot be found, is a storage error; the
      ledger of other features grows by their event. */
  lemma OtherOutcomes(s: State, c: nat, uuid: nat)
    ensures c in s.calls && s.calls[c].phase.Cleared? ==>
      Step(s, CommitFails(c)) == s.(calls := s.calls[c := s.calls[c].(phase := Done(Refused(StorageError)))])
    ensures (&& c in s.calls && s.calls[c].phase.Collided?
             && forall row :: row in s.rows ==> !SameKey(row, s.calls[c].sub)) ==>
      Step(s, AnswerCollision(c)).calls[c].phase == Done(Refused(StorageError))
    ensures uuid !in s.uuids ==> Step(s, AppendOther(uuid)).events == s.events + [OtherEvent(uuid)]
  {
  }

  /** The ledger's attempt events are the attempt events, whatever else is written between them. */
  lemma {:induction false} AttemptEventsMembers(events: seq<Event>, e: Event)
    ensures e in AttemptEvents(events) <==> e in events && e.AttemptEvent?
  {
    if events != [] {
      AttemptEventsMembers(events[..|events| - 1], e);
      assert events == events[..|events| - 1] + [events[|events| - 1]];
    }
  }

  /** Each row has exactly one ledger event carrying its uuid, and each attempt event one row. */
  lemma RowsAndEventsPair(actions: seq<Action>)
    ensures var s := Run(EMPTY, actions);
      && UniqueKeys(s.rows)
      && (forall row :: row in s.rows ==> EventOf(row) in s.events)
      && (forall row, e :: row in s.rows && e in s.events && e.uuid == row.eventUuid ==> e == EventOf(row))
      && (forall e :: e in s.events && e.AttemptEvent? ==> exists row :: row in s.rows && EventOf(row) == e)
  {
    RunKeepsInv(actions);
    var s := Run(EMPTY, actions);
    var listed := AttemptEvents(s.events);
    forall row | row in s.rows ensures EventOf(row) in s.events {
      var i :| 0 <= i < |s.rows| && s.rows[i] == row;
      assert listed[i] == EventOf(row);
      AttemptEventsMembers(s.events, EventOf(row));
    }
    forall row, e | row in s.rows && e in s.events && e.uuid == row.eventUuid ensures e == EventOf(row) {
      assert EventOf(row) in s.events;
      var i :| 0 <= i < |s.events| && s.events[i] == EventOf(row);
      var j :| 0 <= j < |s.events| && s.events[j] == e;
      assert i == j;
    }
    forall e | e in s.events && e.AttemptEvent? ensures exists row :: row in s.rows && EventOf(row) == e {
      AttemptEventsMembers(s.events, e);
      var i :| 0 <= i < |listed| && listed[i] == e;
      assert EventOf(s.rows[i]) == e && s.rows[i] in s.rows;
    }
  }

  /** SELECT COUNT(*) ... WHERE lesson_id = ? AND question_id = ?. */
  function CountQuestion(rows: seq<DbRow>, lesson: nat, question: string): nat {
    |set i | 0 <= i < |rows| && rows[i].lesson == lesson && rows[i].question == question|
  }

  /** The tables, as the bundle-locked write section of one process changes them. */
  class AttemptTable {
    var rows: seq<DbRow>
    var events: seq<Event>
    var uuids: set<nat>

    ghost function Db(): State
      reads this
    {
      State(rows, events, uuids, map[])
    }

    ghost predicate Valid()
      reads this
    {
      Inv(Db())
    }

    constructor ()
      ensures Valid() && rows == [] && events == []
    {
      rows, events, uuids := [], [], {};
    }

    /** One transaction: the row and its event together, or neither when the key is taken. */
    method InsertWithEvent(row: DbRow) returns (inserted: bool)
      requires Valid() && row.attemptId !in uuids && row.eventUuid !in uuids && row.attemptId != row.eventUuid
      modifies this
      ensures Valid()
      ensures inserted <==> forall r :: r in old(rows) ==> !(r.lesson == row.lesson && r.key == row.key)
      ensures inserted ==> rows == old(rows) + [row] && events == old(events) + [EventOf(row)]
      ensures inserted ==> uuids == old(uuids) + {row.attemptId, row.eventUuid}
      ensures !inserted ==> rows == old(rows) && events == old(events) && uuids == old(uuids)
    {
      var sub := Submission(row.lesson, row.key, row.question, row.page);
      inserted := Find(rows, sub).None?;
      if inserted {
        CommitKeepsRows(Db(), row);
        rows, events, uuids := rows + [row], events + [EventOf(row)], uuids + {row.attemptId, row.eventUuid};
      }
    }

    /** The transaction and its `except IntegrityError` branch: insert, or answer with the winner's row. */
    method InsertOrAnswer(sub: Submission, attemptId: nat, eventUuid: nat)
      returns (result: Result, refund: bool, attemptNumber: nat)
      requires Valid() && attemptId !in uuids && eventUuid !in uuids && attemptId != eventUuid
      modifies this
      ensures Valid()
      ensures Find(old(rows), sub).Some? ==>
        (refund && attemptNumber == 0 && rows == old(rows) && result == Answer(Find(rows, sub).value, sub)
         && (if SameTarget(Find(rows, sub).value, sub) then result == Duplicate(Find(rows, sub).value.attemptId)
             else result == Conflict))
      ensures Find(old(rows), sub).None? ==>
        && result == Recorded(attemptId) && !refund
        && rows == old(rows) + [DbRow(sub.lesson, sub.key, sub.question, sub.page, attemptId, eventUuid)]
        && attemptNumber == CountQuestion(rows, sub.lesson, sub.question) && attemptNumber >= 1
    {
      var row := DbRow(sub.lesson, sub.key, sub.question, sub.page, attemptId, eventUuid);
      var inserted := InsertWithEvent(row);
      if !inserted {
        return Answer(Find(rows, sub).value, sub), true, 0;
      }
      var same := set i | 0 <= i < |rows| && rows[i].lesson == sub.lesson && rows[i].question == sub.question;
      assert |rows| - 1 in same;
      return Recorded(attemptId), false, |same|;
    }

    /** `_record_locked`. `rival` is what another process may commit between the check and the transaction. */
    method RecordLocked(sub: Submission, tooLarge: bool, rival: Option<DbRow>, attemptId: nat, eventUuid: nat)
      returns (result: Result, refund: bool, attemptNumber: nat)
      requires Valid() && attemptId !in uuids && eventUuid !in uuids && attemptId != eventUuid
      requires rival.Some? ==> rival.value.attemptId != rival.value.eventUuid
      requires rival.Some? ==> {rival.value.attemptId, rival.value.eventUuid} !! uuids + {attemptId, eventUuid}
      modifies this
      ensures Valid() && old(rows) <= rows
      ensures refund <==> result.Duplicate? || result.Conflict?
      ensures attemptNumber > 0 <==> result.Recorded?
      ensures refund ==> Find(rows, sub).Some? && result == Answer(Find(rows, sub).value, sub)
      ensures forall a :: result == Duplicate(a) <==>
                            refund && a == Find(rows, sub).value.attemptId && SameTarget(Find(rows, sub).value, sub)
      ensures result.Conflict? <==> refund && !SameTarget(Find(rows, sub).value, sub)
      ensures Find(old(rows), sub).Some? ==> refund && rows == old(rows)
      ensures Find(old(rows), sub).None? && tooLarge ==> result == Refused(AnswerTooLarge) && rows == old(rows)
      ensures Find(old(rows), sub).None? && !tooLarge && rival.Some? && Matches(rival.value, sub) ==> refund
      ensures Find(old(rows), sub).None? && !tooLarge && !(rival.Some? && Matches(rival.value, sub)) ==>
        && result == Recorded(attemptId) && |rows| > |old(rows)|
        && rows[|rows| - 1] == DbRow(sub.lesson, sub.key, sub.question, sub.page, attemptId, eventUuid)
        && attemptNumber == CountQuestion(rows, sub.lesson, sub.question) && attemptNumber >= 1
    {
      var replay := Find(rows, sub);
      if replay.Some? { return Answer(replay.value, sub), true, 0; }
      if tooLarge { return Refused(AnswerTooLarge), false, 0; }
      if rival.Some? {
        var landed := InsertWithEvent(rival.value);
        assert landed ==> rows[|rows| - 1] == rival.value;
      }
      result, refund, attemptNumber := InsertOrAnswer(sub, attemptId, eventUuid);
    }
  }
}

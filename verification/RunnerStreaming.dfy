/** Event-stream readers of one job: the `events_after` / `wait_for_update` loop, any number of them at once. */
module RunnerStreaming {
  import opened Options
  import opened RunnerJob

  /** `from` is the cursor the client came with; `emitted` is all it has been sent. */
  datatype Phase = Polling | Sending(batch: seq<Event>, finished: bool) | Suspended(f: nat) | Stopped | Closed

  datatype Reader = Reader(from: nat, cursor: nat, emitted: seq<Event>, phase: Phase)

  datatype State = State(job: Job, readers: map<nat, Reader>)

  datatype StreamAction =
    | JobStep(a: Action, now: int)
    | Connect(r: nat, from: nat)
    | Poll(r: nat)
    | Emit(r: nat)
    | BatchDone(r: nat, f: nat)
    | Wake(r: nat)
    | KeepAlive(r: nat)
    | Disconnect(r: nat)

  /** `events_after`. */
  function EventsAfter(events: seq<Event>, after: nat): seq<Event> {
    if events == [] then []
    else
      var rest := EventsAfter(events[..|events| - 1], after);
      if events[|events| - 1].n > after then rest + [events[|events| - 1]] else rest
  }

  /** With numbers 1..n, filtering by number is cutting at the cursor. */
  lemma {:induction false} EventsAfterIsSuffix(events: seq<Event>, after: nat)
    requires forall i :: 0 <= i < |events| ==> events[i].n == i + 1
    ensures EventsAfter(events, after) == if after <= |events| then events[after..] else []
  {
    if events != [] {
      var front, e := events[..|events| - 1], events[|events| - 1];
      EventsAfterIsSuffix(front, after);
      if after < |events| {
        assert EventsAfter(events, after) == EventsAfter(front, after) + [e];
        assert events[after..] == front[after..] + [e];
      } else {
        assert EventsAfter(events, after) == EventsAfter(front, after);
      }
    }
  }

  predicate InPhase(s: State, r: nat, p: Phase) {
    r in s.readers && s.readers[r].phase == p
  }

  predicate CanStream(s: State, a: StreamAction) {
    match a
    case JobStep(b, now) => CanStep(s.job, b) && !b.WaitForUpdate? && !b.StopWaiting?
    case Connect(r, from) => r !in s.readers
    case Poll(r) => InPhase(s, r, Polling)
    case Emit(r) => r in s.readers && s.readers[r].phase.Sending? && s.readers[r].phase.batch != []
    case BatchDone(r, f) =>
      r in s.readers && s.readers[r].phase.Sending? && s.readers[r].phase.batch == [] && f !in s.job.log.futures
    case Wake(r) => Suspends(s, r) && s.job.log.futures[s.readers[r].phase.f].resolved
    case KeepAlive(r) => Suspends(s, r)
    case Disconnect(r) => r in s.readers && !s.readers[r].phase.Stopped?
  }

  predicate Suspends(s: State, r: nat) {
    r in s.readers && s.readers[r].phase.Suspended? && s.readers[r].phase.f in s.job.log.futures
  }

  function SetPhase(s: State, r: nat, p: Phase): State
    requires r in s.readers
  {
    s.(readers := s.readers[r := s.readers[r].(phase := p)])
  }

  /** The wait ends, woken or not; its future is discarded. */
  function EndWait(s: State, r: nat, p: Phase): State
    requires Suspends(s, r)
  {
    SetPhase(s, r, p).(job := Step(s.job, StopWaiting(s.readers[r].phase.f), 0))
  }

  /** The next event of the batch goes out; the exit event ends the stream. */
  function Emitted(reader: Reader): Reader
    requires reader.phase.Sending? && reader.phase.batch != []
  {
    var e := reader.phase.batch[0];
    var next := if e.Exit? then Stopped else Sending(reader.phase.batch[1..], reader.phase.finished);
    Reader(reader.from, e.n, reader.emitted + [e], next)
  }

  function StreamStep(s: State, a: StreamAction): State
    requires CanStream(s, a)
  {
    match a
    case JobStep(b, now) => s.(job := Step(s.job, b, now))
    case Connect(r, from) => s.(readers := s.readers[r := Reader(from, from, [], Polling)])
    case Poll(r) =>
      SetPhase(s, r, Sending(EventsAfter(s.job.log.events, s.readers[r].cursor), s.job.state.Finished?))
    case Emit(r) => s.(readers := s.readers[r := Emitted(s.readers[r])])
    case BatchDone(r, f) =>
      var reader := s.readers[r];
      if reader.phase.finished then SetPhase(s, r, Stopped)
      else
        var waiting := Step(s.job, WaitForUpdate(f, reader.cursor), 0);
        SetPhase(s, r, if f in waiting.log.futures then Suspended(f) else Polling).(job := waiting)
    case Wake(r) => EndWait(s, r, Polling)
    case KeepAlive(r) => EndWait(s, r, Polling)
    case Disconnect(r) => if Suspends(s, r) then EndWait(s, r, Closed) else SetPhase(s, r, Closed)
  }

  // ---- the invariant ----

  /** What a reader has been sent is exactly the events between where it came in and its cursor. */
  ghost predicate SentExactly(events: seq<Event>, reader: Reader) {
    || (reader.cursor == reader.from && reader.emitted == [])
    || (reader.from <= reader.cursor <= |events| && reader.emitted == events[reader.from..reader.cursor])
  }

  ghost predicate CaughtUp(job: Job, reader: Reader) {
    reader.cursor >= |job.log.events|
  }

  ghost predicate PhaseOk(job: Job, reader: Reader) {
    match reader.phase
    case Sending(batch, finished) =>
      && (batch != [] ==> (reader.cursor + |batch| <= |job.log.events|
                           && batch == job.log.events[reader.cursor..reader.cursor + |batch|]))
      && (finished ==> job.state.Finished? && reader.cursor + |batch| >= |job.log.events|)
    case Suspended(f) => f in job.log.futures && job.log.futures[f].after == reader.cursor
    case Stopped => job.state.Finished? && CaughtUp(job, reader)
    case _ => true
  }

  ghost predicate ReaderOk(job: Job, reader: Reader) {
    SentExactly(job.log.events, reader) && PhaseOk(job, reader)
  }

  ghost predicate StreamInv(s: State) {
    && RunnerJob.Inv(s.job)
    && (forall r :: r in s.readers ==> ReaderOk(s.job, s.readers[r]))
    && forall r, q :: r in s.readers && q in s.readers && r != q
                      && s.readers[r].phase.Suspended? && s.readers[q].phase.Suspended? ==>
                        s.readers[r].phase.f != s.readers[q].phase.f
  }

  /** Only waiting and its end add or remove a future. */
  ghost predicate SameCursors(a: Log, b: Log) {
    && b.futures.Keys == a.futures.Keys
    && forall f :: f in a.futures ==> b.futures[f].after == a.futures[f].after
  }

  lemma FinishKeepsFutures(j: Job, now: int)
    ensures SameCursors(j.log, Finish(j, now).log)
  {
  }

  lemma StepKeepsFutures(j: Job, a: Action, now: int)
    requires CanStep(j, a) && !a.WaitForUpdate? && !a.StopWaiting?
    ensures SameCursors(j.log, Step(j, a, now).log)
  {
    match a
    case DriveStarts => FinishKeepsFutures(NoProcess(j), now);
    case SpawnFails => FinishKeepsFutures(NoProcess(BeginTermination(j, SpawnFailed)), now);
    case ProcessExits(rc) => ExitKeepsFutures(j, rc, now);
    case DriveReturns => FinishKeepsFutures(j, now);
    case StreamEnds(name, tail) =>
      var log := if tail != "" then AppendOutput(j.log, name, tail) else j.log;
      FinishKeepsFutures(j.(log := log, io := WithStage(j.io, name, Eof)), now);
    case _ =>
  }

  lemma ExitKeepsFutures(j: Job, rc: int, now: int)
    ensures SameCursors(j.log, ExitWith(j, rc, now).log)
  {
    FinishKeepsFutures(BeginTermination(Reap(j, rc), if rc < 0 then Signalled else Exited), now);
  }

  lemma LaterKeepsReader(j: Job, t: Job, reader: Reader)
    requires Later(j, t) && ReaderOk(j, reader) && RunnerJob.Inv(j) && RunnerJob.Inv(t)
    requires reader.phase.Suspended? ==>
               reader.phase.f in t.log.futures && t.log.futures[reader.phase.f].after == reader.cursor
    ensures ReaderOk(t, reader)
  {
    var n := |j.log.events|;
    assert forall lo, hi :: 0 <= lo <= hi <= n ==>
      j.log.events[lo..hi] == t.log.events[..n][lo..hi] == t.log.events[lo..hi];
  }

  lemma JobStepKeepsInv(s: State, b: Action, now: int)
    requires StreamInv(s) && CanStream(s, JobStep(b, now))
    ensures StreamInv(StreamStep(s, JobStep(b, now)))
  {
    var t := Step(s.job, b, now);
    RunnerJob.StepKeepsInv(s.job, b, now);
    StepIsLater(s.job, b, now);
    StepKeepsFutures(s.job, b, now);
    forall r | r in s.readers ensures ReaderOk(t, s.readers[r]) {
      LaterKeepsReader(s.job, t, s.readers[r]);
    }
  }

  lemma PollKeepsInv(s: State, r: nat)
    requires StreamInv(s) && CanStream(s, Poll(r))
    ensures StreamInv(StreamStep(s, Poll(r)))
  {
    var events, reader := s.job.log.events, s.readers[r];
    EventsAfterIsSuffix(events, reader.cursor);
    var polled := reader.(phase := Sending(EventsAfter(events, reader.cursor), s.job.state.Finished?));
    assert ReaderOk(s.job, reader);
    assert PhaseOk(s.job, polled) by {
      assert reader.cursor <= |events| ==> events[reader.cursor..] == events[reader.cursor..|events|];
    }
    assert SentExactly(events, polled);
  }

  /** Each event goes out once and in order; the exit event is the last there is. */
  lemma EmitKeepsInv(s: State, r: nat)
    requires StreamInv(s) && CanStream(s, Emit(r))
    ensures StreamInv(StreamStep(s, Emit(r)))
  {
    var t := StreamStep(s, Emit(r));
    assert ReaderOk(s.job, s.readers[r]);
    EmitKeepsReader(s.job, s.readers[r]);
    forall q | q in t.readers ensures ReaderOk(t.job, t.readers[q]) {
      assert q != r ==> ReaderOk(s.job, s.readers[q]);
    }
  }

  lemma EmitKeepsReader(job: Job, reader: Reader)
    requires RunnerJob.Inv(job) && ReaderOk(job, reader) && reader.phase.Sending? && reader.phase.batch != []
    ensures ReaderOk(job, Emitted(reader))
  {
    var events, c, batch := job.log.events, reader.cursor, reader.phase.batch;
    assert batch[0] == events[c];
    assert reader.emitted == [] || reader.emitted == events[reader.from..c];
    EmitSlices(events, reader.from, c, |batch|);
  }

  lemma EmitSlices(events: seq<Event>, from: nat, c: nat, n: nat)
    requires 0 < n && c + n <= |events|
    ensures from <= c ==> events[from..c + 1] == events[from..c] + [events[c]]
    ensures events[c..c + n][1..] == events[c + 1..c + n]
  {
  }

  /** Registering a future changes nothing for a reader that does not wait on it. */
  lemma RegisterKeepsReader(j: Job, f: nat, after: nat, reader: Reader)
    requires ReaderOk(j, reader) && f !in j.log.futures
    ensures ReaderOk(Step(j, WaitForUpdate(f, after), 0), reader)
  {
  }

  lemma WaitKeepsReaders(s: State, r: nat, f: nat)
    requires StreamInv(s) && CanStream(s, BatchDone(r, f))
    ensures var t := StreamStep(s, BatchDone(r, f));
            forall q :: q in t.readers ==> ReaderOk(t.job, t.readers[q])
  {
    var reader := s.readers[r];
    assert ReaderOk(s.job, reader);
    var t := StreamStep(s, BatchDone(r, f));
    forall q | q in t.readers ensures ReaderOk(t.job, t.readers[q]) {
      RegisterKeepsReader(s.job, f, reader.cursor, s.readers[q]);
    }
  }

  lemma WaitKeepsStream(s: State, r: nat, f: nat)
    requires StreamInv(s) && CanStream(s, BatchDone(r, f))
    ensures StreamInv(StreamStep(s, BatchDone(r, f)))
  {
    RunnerJob.StepKeepsInv(s.job, WaitForUpdate(f, s.readers[r].cursor), 0);
    WaitKeepsReaders(s, r, f);
    forall q | q in s.readers && s.readers[q].phase.Suspended? ensures s.readers[q].phase.f in s.job.log.futures {
      assert ReaderOk(s.job, s.readers[q]);
    }
  }

  lemma EndWaitKeepsInv(s: State, r: nat, p: Phase)
    requires StreamInv(s) && Suspends(s, r) && (p.Polling? || p.Closed?)
    ensures StreamInv(EndWait(s, r, p))
  {
    RunnerJob.StepKeepsInv(s.job, StopWaiting(s.readers[r].phase.f), 0);
    var t := EndWait(s, r, p);
    forall q | q in t.readers ensures ReaderOk(t.job, t.readers[q]) {
      assert ReaderOk(s.job, s.readers[q]);
    }
  }

  lemma StreamStepKeepsInv(s: State, a: StreamAction)
    requires StreamInv(s) && CanStream(s, a)
    ensures StreamInv(StreamStep(s, a))
  {
    match a
    case JobStep(b, now) => JobStepKeepsInv(s, b, now);
    case Connect(r, from) =>
    case Poll(r) => PollKeepsInv(s, r);
    case Emit(r) => EmitKeepsInv(s, r);
    case BatchDone(r, f) => WaitKeepsStream(s, r, f);
    case Wake(r) => EndWaitKeepsInv(s, r, Polling);
    case KeepAlive(r) => EndWaitKeepsInv(s, r, Polling);
    case Disconnect(r) => if Suspends(s, r) { EndWaitKeepsInv(s, r, Closed); }
  }

  ghost predicate Follows(s: State, t: State) {
    exists a :: CanStream(s, a) && t == StreamStep(s, a)
  }

  ghost predicate IsRun(run: seq<State>) {
    && run != [] && run[0] == State(NewJob(run[0].job.request, run[0].job.createdAt), map[])
    && forall i {:trigger StepsAt(run, i)} :: StepsAt(run, i)
  }

  ghost predicate StepsAt(run: seq<State>, i: int) {
    0 <= i < |run| - 1 ==> Follows(run[i], run[i + 1])
  }

  lemma {:induction false} StreamRunKeepsInv(run: seq<State>, k: nat)
    requires IsRun(run) && k < |run|
    ensures StreamInv(run[k])
  {
    if k > 0 {
      StreamRunKeepsInv(run, k - 1);
      assert StepsAt(run, k - 1);
      var a :| CanStream(run[k - 1], a) && run[k] == StreamStep(run[k - 1], a);
      StreamStepKeepsInv(run[k - 1], a);
    }
  }

  // ---- the theorems ----

  /** A reader that came with cursor `from` is sent exactly the events numbered above it, in order, once
      each: so far a prefix of them, and all of them when it stops by itself or is left suspended. */
  lemma ExactResume(run: seq<State>, k: nat, r: nat)
    requires IsRun(run) && k < |run| && r in run[k].readers
    ensures var s, reader := run[k], run[k].readers[r];
            var due := EventsAfter(s.job.log.events, reader.from);
            && |reader.emitted| <= |due| && reader.emitted == due[..|reader.emitted|]
            && (reader.phase.Stopped? ==> s.job.state.Finished? && reader.emitted == due)
            && (Suspends(s, r) && !s.job.log.futures[reader.phase.f].resolved ==> reader.emitted == due)
  {
    StreamRunKeepsInv(run, k);
    var s, reader := run[k], run[k].readers[r];
    var events := s.job.log.events;
    EventsAfterIsSuffix(events, reader.from);
    assert ReaderOk(s.job, reader);
    if reader.from <= reader.cursor <= |events| && reader.emitted == events[reader.from..reader.cursor] {
      assert events[reader.from..reader.cursor] == events[reader.from..][..|reader.emitted|];
      assert events[reader.from..|events|] == events[reader.from..];
    }
  }

  /** A reader is never left suspended with something to tell it: the job's next event resolves its wait. */
  lemma EveryEventWakesReaders(run: seq<State>, k: nat, r: nat, b: Action, now: int)
    requires IsRun(run) && k < |run| && Suspends(run[k], r) && CanStream(run[k], JobStep(b, now))
    requires |Step(run[k].job, b, now).log.events| > |run[k].job.log.events|
    requires |Step(run[k].job, b, now).log.events| > run[k].readers[r].cursor
    ensures CanStream(StreamStep(run[k], JobStep(b, now)), Wake(r))
  {
    StreamRunKeepsInv(run, k);
    var s := run[k];
    JobStepKeepsInv(s, b, now);
    var t := StreamStep(s, JobStep(b, now));
    assert ReaderOk(t.job, t.readers[r]);
  }

  /** A reader that connects is asked for everything after its cursor, and has been sent nothing. */
  lemma ConnectedReader(s: State, r: nat, from: nat)
    requires r !in s.readers
    ensures CanStream(s, Connect(r, from)) && CanStream(StreamStep(s, Connect(r, from)), Poll(r))
    ensures StreamStep(s, Connect(r, from)) == s.(readers := s.readers[r := Reader(from, from, [], Polling)])
  {
  }

  /** With events due a poll gets them, and each goes out in its turn; after the exit event nothing follows. */
  lemma DueEventsGoOut(s: State, r: nat)
    requires StreamInv(s) && r in s.readers && s.readers[r].phase.Polling?
    requires s.readers[r].cursor < |s.job.log.events|
    ensures CanStream(s, Poll(r)) && CanStream(StreamStep(s, Poll(r)), Emit(r))
    ensures var events, was := s.job.log.events, s.readers[r];
            var now := StreamStep(StreamStep(s, Poll(r)), Emit(r)).readers[r];
            && now.emitted == was.emitted + [events[was.cursor]] && now.cursor == was.cursor + 1
            && now.phase == if events[was.cursor].Exit? then Stopped
                            else Sending(events[was.cursor + 1..], s.job.state.Finished?)
  {
    EventsAfterIsSuffix(s.job.log.events, s.readers[r].cursor);
  }

  /** With nothing due the reader of a finished job stops, and any other is suspended on a future that is
      registered for its cursor. */
  lemma NothingDueSuspends(s: State, r: nat, f: nat)
    requires StreamInv(s) && r in s.readers && s.readers[r].phase.Polling? && f !in s.job.log.futures
    requires s.readers[r].cursor >= |s.job.log.events|
    ensures CanStream(s, Poll(r)) && CanStream(StreamStep(s, Poll(r)), BatchDone(r, f))
    ensures var t := StreamStep(StreamStep(s, Poll(r)), BatchDone(r, f));
            && t.readers[r].emitted == s.readers[r].emitted
            && (if s.job.state.Finished? then t.readers[r].phase.Stopped? && t.job == s.job
                else Suspends(t, r) && t.readers[r].phase.f == f && f in t.job.log.waiters
                     && t.job.log.futures[f] == Future(s.readers[r].cursor, false))
  {
    EventsAfterIsSuffix(s.job.log.events, s.readers[r].cursor);
  }

  /** Woken or timed out a reader polls again, and one that leaves is closed; its wait is given up either way. */
  lemma WaitsAreGivenUp(s: State, r: nat, a: StreamAction)
    requires CanStream(s, a) && r in s.readers && (a == Wake(r) || a == KeepAlive(r) || a == Disconnect(r))
    ensures StreamStep(s, a).readers ==
            s.readers[r := s.readers[r].(phase := if a.Disconnect? then Closed else Polling)]
    ensures Suspends(s, r) ==>
              StreamStep(s, a).job == s.job.(log := Discard(s.job.log, s.readers[r].phase.f))
  {
  }
}

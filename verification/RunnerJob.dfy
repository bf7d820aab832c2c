/** One runner job: the drive coroutine, its two stream readers, cancellation and the waiters on its events.
    Each stretch of the source without an await is one step; any step may follow any other whose guard holds. */
module RunnerJob {
  import opened Options

  const OUTPUT_LIMIT_BYTES: nat := 1024 * 1024
  const OUTPUT_READ_BYTES: nat := 8 * 1024

  datatype Request = Request(lesson: nat, key: nat, block: nat, rev: nat)

  datatype JobState = Starting | Running | Terminating | Finished

  datatype Cause = Exited | Signalled | TimedOut | Cancelled | OutputLimit | ShutDown | SpawnFailed

  datatype StreamName = Stdout | Stderr

  datatype Event =
    | Output(n: nat, stream: StreamName, text: string)
    | Exit(n: nat, cause: Cause, truncated: bool, durationMs: nat, exitCode: Option<int>, signal: Option<int>)

  /** Where a stream reader stands; `Eof` is the job's eof flag. `read` and `accepted` are histories. */
  datatype Stage = Unopened | Reading | Overflowed | Failing | Eof

  datatype Stream = Stream(stage: Stage, read: Bytes, accepted: Bytes)

  /** Where the drive coroutine stands. */
  datatype Drive = Queued | Spawning | Waiting | Draining | Returned

  datatype Future = Future(after: nat, resolved: bool)

  /** A job's event list and whoever is suspended on it. */
  datatype Log = Log(events: seq<Event>, nextSeq: nat, waiters: set<nat>, futures: map<nat, Future>)

  /** The two output streams and the cap they share. */
  datatype Io = Io(out: Stream, err: Stream, outputBytes: nat, truncated: bool)

  datatype Job = Job(
    request: Request, state: JobState, cause: Option<Cause>, exitCode: Option<int>, signal: Option<int>,
    createdAt: int, finishedAt: Option<int>, processReaped: bool, hasProcess: bool,
    reservationReleased: bool, readerCount: nat, drive: Drive, io: Io, log: Log)

  function NewJob(request: Request, now: int): Job {
    var unopened := Stream(Unopened, [], []);
    Job(request, Starting, None, None, None, now, None, false, false, false, 0, Queued,
        Io(unopened, unopened, 0, false), Log([], 1, {}, map[]))
  }

  /** Appends an event and wakes everybody registered (`_notify_waiters`). */
  function Append(log: Log, e: Event): Log {
    Log(log.events + [e], log.nextSeq + 1, {},
        map f | f in log.futures :: if f in log.waiters then log.futures[f].(resolved := true) else log.futures[f])
  }

  /** `_append_output_event`. */
  function AppendOutput(log: Log, name: StreamName, text: string): Log {
    Append(log, Output(log.nextSeq, name, text))
  }

  /** The job's part of `_begin_termination_locked`. */
  function BeginTermination(j: Job, cause: Cause): Job {
    if j.cause.Some? then j else j.(cause := Some(cause), state := Terminating, reservationReleased := true)
  }

  predicate AtEof(io: Io) {
    io.out.stage.Eof? && io.err.stage.Eof?
  }

  predicate MayFinish(j: Job) {
    j.state.Terminating? && j.cause.Some? && j.processReaped && AtEof(j.io)
  }

  function ExitEvent(j: Job, now: int): Event
    requires j.cause.Some?
  {
    var duration := if now > j.createdAt then now - j.createdAt else 0;
    Exit(j.log.nextSeq, j.cause.value, j.io.truncated, duration, j.exitCode, j.signal)
  }

  /** The job's part of `_finish_locked`. */
  function Finish(j: Job, now: int): Job {
    if !MayFinish(j) then j
    else j.(state := Finished, finishedAt := Some(now), log := Append(j.log, ExitEvent(j, now)))
  }

  function StreamOf(io: Io, name: StreamName): Stream {
    if name.Stdout? then io.out else io.err
  }

  function WithStream(io: Io, name: StreamName, s: Stream): Io {
    if name.Stdout? then io.(out := s) else io.(err := s)
  }

  function WithStage(io: Io, name: StreamName, stage: Stage): Io {
    WithStream(io, name, StreamOf(io, name).(stage := stage))
  }

  /** How much of a chunk the shared cap still admits. */
  function Admits(io: Io, chunk: Bytes): (k: nat)
    ensures k <= |chunk|
    ensures k > 0 ==> io.outputBytes + k <= OUTPUT_LIMIT_BYTES
    ensures k < |chunk| ==> io.outputBytes + k >= OUTPUT_LIMIT_BYTES
  {
    var remaining := if io.outputBytes < OUTPUT_LIMIT_BYTES then OUTPUT_LIMIT_BYTES - io.outputBytes else 0;
    if remaining < |chunk| then remaining else |chunk|
  }

  /** One chunk under the output lock: the cap admits a prefix of it. */
  function TakeChunk(io: Io, name: StreamName, chunk: Bytes): Io {
    var k := Admits(io, chunk);
    var s := StreamOf(io, name);
    WithStream(
      io.(outputBytes := io.outputBytes + k, truncated := io.truncated || k < |chunk|), name,
      Stream(if k < |chunk| then Overflowed else s.stage, s.read + chunk, s.accepted + chunk[..k]))
  }

  function NoProcess(j: Job): Job {
    j.(processReaped := true, io := WithStage(WithStage(j.io, Stdout, Eof), Stderr, Eof))
  }

  datatype Action =
    | DriveStarts
    | SpawnFails
    | Spawned
    | WaitTimesOut
    | WaitIsCancelled
    | ProcessExits(returncode: int)
    | DriveReturns
    | Chunk(name: StreamName, chunk: Bytes, text: string)
    | LimitHit(name: StreamName)
    | ReadFails(name: StreamName)
    | StreamEnds(name: StreamName, tail: string)
    | Cancel(exited: bool)
    | Shutdown
    | WaitForUpdate(f: nat, after: nat)
    | StopWaiting(f: nat)

  /** A reader runs once the process has been spawned. */
  predicate ReadersRun(j: Job) {
    j.drive.Waiting? || j.drive.Draining?
  }

  predicate CanStep(j: Job, a: Action) {
    match a
    case DriveStarts => j.drive.Queued?
    case SpawnFails => j.drive.Spawning?
    case Spawned => j.drive.Spawning?
    case WaitTimesOut => j.drive.Waiting?
    case WaitIsCancelled => j.drive.Waiting?
    case ProcessExits(rc) => j.drive.Waiting?
    case DriveReturns => j.drive.Draining? && AtEof(j.io)
    case Chunk(name, chunk, text) =>
      ReadersRun(j) && StreamOf(j.io, name).stage.Reading? && 0 < |chunk| <= OUTPUT_READ_BYTES
    case LimitHit(name) => StreamOf(j.io, name).stage.Overflowed?
    case ReadFails(name) => ReadersRun(j) && StreamOf(j.io, name).stage.Reading?
    case StreamEnds(name, tail) =>
      var stage := StreamOf(j.io, name).stage;
      ReadersRun(j) && (stage.Reading? || (stage.Failing? && tail == ""))
    case Cancel(exited) => true
    case Shutdown => true
    case WaitForUpdate(f, after) => f !in j.log.futures
    case StopWaiting(f) => f in j.log.futures
  }

  predicate HasEventAfter(events: seq<Event>, after: nat) {
    exists i :: 0 <= i < |events| && events[i].n > after
  }

  function Register(log: Log, f: nat, after: nat): Log {
    log.(waiters := log.waiters + {f}, futures := log.futures[f := Future(after, false)])
  }

  function Discard(log: Log, f: nat): Log {
    log.(waiters := log.waiters - {f}, futures := log.futures - {f})
  }

  /** The process is reaped and its return code noted. */
  function Reap(j: Job, rc: int): Job {
    var reaped := j.(processReaped := true, drive := Draining);
    if rc < 0 then reaped.(signal := Some(-rc)) else reaped.(exitCode := Some(rc))
  }

  /** Then the termination begins, unless it had begun, and the job is finished if it may be. */
  function ExitWith(j: Job, rc: int, now: int): Job {
    Finish(BeginTermination(Reap(j, rc), if rc < 0 then Signalled else Exited), now)
  }

  function EndStream(j: Job, name: StreamName, tail: string, now: int): Job {
    var log := if tail != "" then AppendOutput(j.log, name, tail) else j.log;
    Finish(j.(log := log, io := WithStage(j.io, name, Eof)), now)
  }

  function Step(j: Job, a: Action, now: int): Job
    requires CanStep(j, a)
  {
    match a
    case DriveStarts =>
      if !j.state.Starting? then Finish(NoProcess(j), now).(drive := Returned) else j.(drive := Spawning)
    case SpawnFails => Finish(NoProcess(BeginTermination(j, SpawnFailed)), now).(drive := Returned)
    case Spawned =>
      j.(hasProcess := true, state := if j.state.Starting? then Running else j.state, drive := Waiting,
      io := WithStage(WithStage(j.io, Stdout, Reading), Stderr, Reading))
    case WaitTimesOut => BeginTermination(j, TimedOut)
    case WaitIsCancelled => BeginTermination(j, ShutDown)
    case ProcessExits(rc) => ExitWith(j, rc, now)
    case DriveReturns => Finish(j, now).(drive := Returned)
    case Chunk(name, chunk, text) =>            // `text` is what the decoder makes of the accepted bytes
      j.(io := TakeChunk(j.io, name, chunk),
      log := if Admits(j.io, chunk) > 0 && text != "" then AppendOutput(j.log, name, text) else j.log)
    case LimitHit(name) => BeginTermination(j.(io := WithStage(j.io, name, Reading)), OutputLimit)
    case ReadFails(name) => BeginTermination(j.(io := WithStage(j.io, name, Failing)), SpawnFailed)
    case StreamEnds(name, tail) => EndStream(j, name, tail, now)
    case Cancel(exited) =>
      if j.state.Finished? || j.processReaped || (j.hasProcess && exited) then j else BeginTermination(j, Cancelled)
    case Shutdown => if j.state.Finished? then j else BeginTermination(j, ShutDown)
    case WaitForUpdate(f, after) =>
      if j.state.Finished? || HasEventAfter(j.log.events, after) then j else j.(log := Register(j.log, f, after))
    case StopWaiting(f) => j.(log := Discard(j.log, f))
  }

  // ---- the invariant ----

  /** Events are numbered 1..n, and an exit event is there exactly when the job is finished, last and alone. */
  ghost predicate Numbered(log: Log, finished: bool) {
    && log.nextSeq == |log.events| + 1
    && (forall i :: 0 <= i < |log.events| ==> log.events[i].n == i + 1)
    && (forall i :: 0 <= i < |log.events| ==> (log.events[i].Exit? <==> finished && i == |log.events| - 1))
    && (finished ==> log.events != [])
  }

  /** A caller still suspended is registered, and there is nothing yet that it should have been told. */
  ghost predicate NobodyForgotten(log: Log, finished: bool) {
    && (forall f :: f in log.waiters ==> f in log.futures)
    && forall f :: f in log.futures && !log.futures[f].resolved ==>
                     f in log.waiters && |log.events| <= log.futures[f].after && !finished
  }

  ghost predicate LogOk(log: Log, finished: bool) {
    Numbered(log, finished) && NobodyForgotten(log, finished)
  }

  /** The exit event tells what became of the job. */
  ghost predicate ExitMatches(j: Job) {
    j.state.Finished? && j.log.events != [] && j.finishedAt.Some? && j.cause.Some? ==>
      j.log.events[|j.log.events| - 1] ==
      Exit(|j.log.events|, j.cause.value, j.io.truncated,
           if j.finishedAt.value > j.createdAt then j.finishedAt.value - j.createdAt else 0, j.exitCode, j.signal)
  }

  /** A recorded cause is what happened: a return code was seen, the cap was hit, or no process ran. */
  ghost predicate CauseOk(j: Job) {
    && (j.exitCode.Some? ==> j.exitCode.value >= 0 && j.signal.None?)
    && (j.signal.Some? ==> j.signal.value > 0)
    && ((j.exitCode.Some? || j.signal.Some?) <==> j.hasProcess && j.processReaped)
    && (j.hasProcess <==> ReadersRun(j) || (j.drive.Returned? && (j.exitCode.Some? || j.signal.Some?)))
    && (j.cause.Some? ==> Fits(j, j.cause.value))
  }

  /** What a cause claims about the job. */
  predicate Fits(j: Job, cause: Cause) {
    match cause
    case Exited => j.exitCode.Some?
    case Signalled => j.signal.Some?
    case OutputLimit => j.io.truncated
    case TimedOut => j.hasProcess
    case _ => true
  }

  ghost predicate LifeOk(j: Job) {
    && (j.cause.Some? <==> j.state.Terminating? || j.state.Finished?)
    && (j.reservationReleased <==> j.cause.Some?)
    && (j.finishedAt.Some? <==> j.state.Finished?)
    && (j.state.Finished? ==> j.processReaped && AtEof(j.io))
    && ((j.drive.Queued? || j.drive.Spawning?) <==> j.io.out.stage.Unopened?)
    && ((j.drive.Queued? || j.drive.Spawning?) <==> j.io.err.stage.Unopened?)
    && (j.drive.Queued? || j.drive.Spawning? ==> !j.processReaped && !j.state.Running?)
    && (j.drive.Waiting? ==> !j.processReaped && !j.state.Starting?)
    && (j.drive.Draining? ==> j.processReaped && j.cause.Some?)
    && (j.drive.Returned? ==> j.state.Finished?)
  }

  ghost predicate Prefix(a: Bytes, b: Bytes) {
    |a| <= |b| && b[..|a|] == a
  }

  function Min(a: nat, b: nat): nat {
    if a < b then a else b
  }

  /** The two readers share one cap: it counts every byte read by either, up to the limit. */
  ghost predicate CapOk(io: Io) {
    var total := |io.out.read| + |io.err.read|;
    && io.outputBytes == |io.out.accepted| + |io.err.accepted|
    && io.outputBytes == Min(OUTPUT_LIMIT_BYTES, total)
    && (io.truncated <==> total > OUTPUT_LIMIT_BYTES)
    && (io.out.stage.Overflowed? || io.err.stage.Overflowed? ==> io.truncated)
    && Prefix(io.out.accepted, io.out.read) && Prefix(io.err.accepted, io.err.read)
    && (io.outputBytes < OUTPUT_LIMIT_BYTES ==> io.out.accepted == io.out.read && io.err.accepted == io.err.read)
  }

  ghost predicate Inv(j: Job) {
    LogOk(j.log, j.state.Finished?) && ExitMatches(j) && LifeOk(j) && CauseOk(j) && CapOk(j.io)
  }

  // ---- what each part of a step keeps ----

  lemma BeginKeepsInv(j: Job, cause: Cause)
    requires Inv(j) && Fits(j, cause)
    ensures Inv(BeginTermination(j, cause))
    ensures j.cause.Some? ==> BeginTermination(j, cause) == j
    ensures BeginTermination(j, cause).cause == Some(if j.cause.Some? then j.cause.value else cause)
  {
  }

  /** An appended event wakes everybody registered. */
  lemma AppendKeepsLog(log: Log, e: Event)
    requires LogOk(log, false) && e.n == log.nextSeq
    ensures LogOk(Append(log, e), e.Exit?)
  {
  }

  lemma FinishKeepsInv(j: Job, now: int)
    requires Inv(j)
    ensures Inv(Finish(j, now))
    ensures MayFinish(j) ==> Inv(Finish(j, now).(drive := Returned))
  {
    if MayFinish(j) {
      AppendKeepsLog(j.log, ExitEvent(j, now));
    }
  }

  /** Without a process there is nothing to wait for: the job is finished at once. */
  lemma NoProcessFinishes(j: Job, now: int)
    requires Inv(j) && j.state.Terminating? && (j.drive.Queued? || j.drive.Spawning?)
    ensures Inv(Finish(NoProcess(j), now).(drive := Returned))
  {
    AppendKeepsLog(j.log, ExitEvent(NoProcess(j), now));
  }

  lemma ChunkStaysPrefix(read: Bytes, accepted: Bytes, chunk: Bytes, k: nat)
    requires Prefix(accepted, read) && k <= |chunk| && (k > 0 ==> accepted == read)
    ensures Prefix(accepted + chunk[..k], read + chunk)
  {
    if k == 0 {
      assert accepted + chunk[..k] == accepted;
      assert (read + chunk)[..|accepted|] == read[..|accepted|];
    } else {
      assert (read + chunk)[..|read| + k] == read + chunk[..k];
    }
  }

  lemma TakeChunkKeepsCap(io: Io, name: StreamName, chunk: Bytes)
    requires CapOk(io)
    ensures CapOk(TakeChunk(io, name, chunk))
  {
    var k := Admits(io, chunk);
    var s := StreamOf(io, name);
    ChunkStaysPrefix(s.read, s.accepted, chunk, k);
    assert chunk[..|chunk|] == chunk;
  }

  lemma ChunkKeepsInv(j: Job, a: Action, now: int)
    requires Inv(j) && CanStep(j, a) && a.Chunk?
    ensures Inv(Step(j, a, now))
  {
    TakeChunkKeepsCap(j.io, a.name, a.chunk);
    AppendKeepsLog(j.log, Output(j.log.nextSeq, a.name, a.text));
  }

  lemma StartKeepsInv(j: Job, a: Action, now: int)
    requires Inv(j) && CanStep(j, a) && (a.DriveStarts? || a.SpawnFails? || a.Spawned?)
    ensures Inv(Step(j, a, now))
  {
    if a.SpawnFails? {
      BeginKeepsInv(j, SpawnFailed);
      NoProcessFinishes(BeginTermination(j, SpawnFailed), now);
    } else if a.DriveStarts? && !j.state.Starting? {
      NoProcessFinishes(j, now);
    }
  }

  /** Between being reaped and having its cause recorded a job lacks only that cause. */
  lemma ExitKeepsInv(j: Job, rc: int, now: int)
    requires Inv(j) && j.drive.Waiting?
    ensures Inv(ExitWith(j, rc, now))
  {
    var reaped := Reap(j, rc);
    var ended := BeginTermination(reaped, if rc < 0 then Signalled else Exited);
    assert CauseOk(ended) && LifeOk(ended);
    FinishKeepsInv(ended, now);
  }

  lemma StreamKeepsInv(j: Job, a: Action, now: int)
    requires Inv(j) && CanStep(j, a) && (a.LimitHit? || a.ReadFails?)
    ensures Inv(Step(j, a, now))
  {
    var moved := j.(io := WithStage(j.io, a.name, if a.LimitHit? then Reading else Failing));
    assert Inv(moved);
    BeginKeepsInv(moved, if a.LimitHit? then OutputLimit else SpawnFailed);
  }

  lemma EndKeepsInv(j: Job, name: StreamName, tail: string, now: int)
    requires Inv(j) && CanStep(j, StreamEnds(name, tail))
    ensures Inv(EndStream(j, name, tail, now))
  {
    AppendKeepsLog(j.log, Output(j.log.nextSeq, name, tail));
    var log := if tail != "" then AppendOutput(j.log, name, tail) else j.log;
    assert CapOk(WithStage(j.io, name, Eof));
    var ended := j.(log := log, io := WithStage(j.io, name, Eof));
    assert LifeOk(ended);
    FinishKeepsInv(ended, now);
  }

  lemma WaitKeepsInv(j: Job, a: Action, now: int)
    requires Inv(j) && CanStep(j, a) && (a.WaitForUpdate? || a.StopWaiting?)
    ensures Inv(Step(j, a, now))
  {
    if a.WaitForUpdate? && |j.log.events| > a.after {
      assert j.log.events[|j.log.events| - 1].n > a.after;
    }
  }

  lemma StepKeepsInv(j: Job, a: Action, now: int)
    requires Inv(j) && CanStep(j, a)
    ensures Inv(Step(j, a, now))
  {
    match a
    case DriveStarts => StartKeepsInv(j, a, now);
    case SpawnFails => StartKeepsInv(j, a, now);
    case Spawned => StartKeepsInv(j, a, now);
    case WaitTimesOut => BeginKeepsInv(j, TimedOut);
    case WaitIsCancelled => BeginKeepsInv(j, ShutDown);
    case ProcessExits(rc) => ExitKeepsInv(j, rc, now);
    case DriveReturns => FinishKeepsInv(j, now);
    case Chunk(_, _, _) => ChunkKeepsInv(j, a, now);
    case LimitHit(_) => StreamKeepsInv(j, a, now);
    case ReadFails(_) => StreamKeepsInv(j, a, now);
    case StreamEnds(_, _) => EndKeepsInv(j, a.name, a.tail, now);
    case Cancel(_) => BeginKeepsInv(j, Cancelled);
    case Shutdown => BeginKeepsInv(j, ShutDown);
    case WaitForUpdate(_, _) => WaitKeepsInv(j, a, now);
    case StopWaiting(_) => WaitKeepsInv(j, a, now);
  }

  // ---- what a run of steps keeps ----

  function Rank(s: JobState): nat {
    match s
    case Starting => 0
    case Running => 1
    case Terminating => 2
    case Finished => 3
  }

  ghost predicate LogGrows(a: seq<Event>, b: seq<Event>) {
    |a| <= |b| && b[..|a|] == a
  }

  /** How a job may differ later: the state only advances, the first cause stays, the log only grows,
      and a finished job's log and finish time are frozen. */
  ghost predicate Later(j: Job, t: Job) {
    && t.request == j.request && t.createdAt == j.createdAt
    && Rank(j.state) <= Rank(t.state)
    && (j.cause.Some? ==> t.cause == j.cause)
    && (j.reservationReleased ==> t.reservationReleased)
    && LogGrows(j.log.events, t.log.events)
    && (j.state.Finished? ==> t.log.events == j.log.events && t.finishedAt == j.finishedAt && t.io == j.io)
    && (j.drive.Returned? ==> t.drive.Returned?)
  }

  lemma FinishIsLater(j: Job, now: int)
    ensures !j.state.Finished? ==> Later(j, Finish(j, now))
    ensures j.state.Finished? ==> Finish(j, now) == j
    ensures Finish(j, now).state.Finished? && !j.state.Finished? ==> Finish(j, now).finishedAt == Some(now)
  {
  }

  lemma StepIsLater(j: Job, a: Action, now: int)
    requires Inv(j) && CanStep(j, a)
    ensures var t := Step(j, a, now);
            && Later(j, t) && t.readerCount == j.readerCount
            && (!j.state.Finished? && t.state.Finished? ==> t.finishedAt == Some(now))
  {
    if a.SpawnFails? {
      FinishIsLater(NoProcess(BeginTermination(j, SpawnFailed)), now);
    } else if a.DriveStarts? {
      FinishIsLater(NoProcess(j), now);
    } else if a.ProcessExits? {
      ExitIsLater(j, a.returncode, now);
    } else if a.StreamEnds? {
      EndIsLater(j, a.name, a.tail, now);
    } else if a.DriveReturns? {
      FinishIsLater(j, now);
    }
  }

  lemma ExitIsLater(j: Job, rc: int, now: int)
    requires Inv(j) && j.drive.Waiting?
    ensures var t := ExitWith(j, rc, now);
            && Later(j, t) && t.readerCount == j.readerCount
            && (!j.state.Finished? && t.state.Finished? ==> t.finishedAt == Some(now))
  {
    FinishIsLater(BeginTermination(Reap(j, rc), if rc < 0 then Signalled else Exited), now);
  }

  lemma EndIsLater(j: Job, name: StreamName, tail: string, now: int)
    requires Inv(j) && CanStep(j, StreamEnds(name, tail))
    ensures var t := EndStream(j, name, tail, now);
            && Later(j, t) && t.readerCount == j.readerCount
            && (!j.state.Finished? && t.state.Finished? ==> t.finishedAt == Some(now))
  {
    var log := if tail != "" then AppendOutput(j.log, name, tail) else j.log;
    var ended := j.(log := log, io := WithStage(j.io, name, Eof));
    FinishIsLater(ended, now);
    assert LogGrows(j.log.events, log.events);
  }

  /** One step of a job, or the service counting its readers. */
  datatype Move = Act(a: Action, now: int) | CountReaders(n: nat)

  function Then(j: Job, m: Move): Option<Job> {
    match m
    case Act(a, now) => if CanStep(j, a) then Some(Step(j, a, now)) else None
    case CountReaders(n) => Some(j.(readerCount := n))
  }

  /** The job after a run of moves from its admission, if each of them was possible. */
  function RunJob(request: Request, at: int, moves: seq<Move>): Option<Job> {
    if moves == [] then Some(NewJob(request, at))
    else
      var before := RunJob(request, at, moves[..|moves| - 1]);
      if before.Some? then Then(before.value, moves[|moves| - 1]) else None
  }

  lemma MoveKeeps(j: Job, m: Move)
    requires Inv(j) && Then(j, m).Some?
    ensures Inv(Then(j, m).value) && Later(j, Then(j, m).value)
  {
    if m.Act? {
      StepKeepsInv(j, m.a, m.now);
      StepIsLater(j, m.a, m.now);
    } else {
      LaterItself(j);
    }
  }

  lemma LaterItself(j: Job)
    ensures Later(j, j)
  {
  }

  lemma LaterTransitive(a: Job, b: Job, c: Job)
    requires Later(a, b) && Later(b, c)
    ensures Later(a, c)
  {
    assert c.log.events[..|a.log.events|] == c.log.events[..|b.log.events|][..|a.log.events|];
  }

  lemma NewJobIsFine(request: Request, now: int)
    ensures Inv(NewJob(request, now))
  {
  }

  lemma {:induction false} RunKeepsInv(request: Request, at: int, moves: seq<Move>)
    ensures RunJob(request, at, moves).Some? ==> Inv(RunJob(request, at, moves).value)
  {
    if moves == [] {
      NewJobIsFine(request, at);
    } else {
      var front := moves[..|moves| - 1];
      RunKeepsInv(request, at, front);
      if RunJob(request, at, moves).Some? {
        MoveKeeps(RunJob(request, at, front).value, moves[|moves| - 1]);
      }
    }
  }

  /** In every run the job is a later form of what it was after any part of the run. */
  lemma {:induction false} RunMovesOn(request: Request, at: int, moves: seq<Move>, k: nat)
    requires k <= |moves|
    ensures RunJob(request, at, moves).Some? ==>
              RunJob(request, at, moves[..k]).Some?
              && Later(RunJob(request, at, moves[..k]).value, RunJob(request, at, moves).value)
  {
    if RunJob(request, at, moves).Some? {
      if k == |moves| {
        assert moves[..k] == moves;
        LaterItself(RunJob(request, at, moves).value);
      } else {
        var front := moves[..|moves| - 1];
        assert front[..k] == moves[..k];
        RunMovesOn(request, at, front, k);
        RunKeepsInv(request, at, front);
        MoveKeeps(RunJob(request, at, front).value, moves[|moves| - 1]);
        LaterTransitive(RunJob(request, at, moves[..k]).value, RunJob(request, at, front).value,
                        RunJob(request, at, moves).value);
      }
    }
  }

  /** Job lifecycle over any run: states advance, the first cause is final, events are 1..n, a finished job
      has been reaped with both streams ended and exactly one exit event, its last; and the drive coroutine
      returns only then. */
  lemma {:induction false} Lifecycle(request: Request, at: int, moves: seq<Move>, k: nat)
    requires k <= |moves|
    ensures RunJob(request, at, moves).Some? ==>
              && RunJob(request, at, moves[..k]).Some?
              && var was, j := RunJob(request, at, moves[..k]).value, RunJob(request, at, moves).value;
              && Rank(was.state) <= Rank(j.state)
              && (was.cause.Some? ==> j.cause == was.cause)
              && (was.state.Finished? ==> j.log.events == was.log.events && j.finishedAt == was.finishedAt)
              && LogGrows(was.log.events, j.log.events)
              && (forall e :: 0 <= e < |j.log.events| ==> j.log.events[e].n == e + 1)
              && (forall e :: 0 <= e < |j.log.events| ==>
                    (j.log.events[e].Exit? <==> j.state.Finished? && e == |j.log.events| - 1))
              && (j.state.Finished? ==> j.processReaped && AtEof(j.io) && j.log.events != [] && j.cause.Some?)
              && (j.drive.Returned? ==> j.state.Finished?)
  {
    RunKeepsInv(request, at, moves);
    RunMovesOn(request, at, moves, k);
  }

  /** The recorded cause and the exit event tell what happened: an exit or signal cause was seen as the
      return code, an output limit means bytes were cut, and the event repeats the job's final facts. */
  ghost predicate TellsTruth(j: Job) {
    && (j.cause == Some(Exited) ==> j.exitCode.Some? && j.exitCode.value >= 0 && j.signal.None?)
    && (j.cause == Some(Signalled) ==> j.signal.Some? && j.signal.value > 0)
    && (j.cause == Some(OutputLimit) ==> |j.io.out.read| + |j.io.err.read| > OUTPUT_LIMIT_BYTES)
    && (j.state.Finished? && j.hasProcess ==> (j.exitCode.Some? <==> j.signal.None?))
    && (j.state.Finished? ==>
          && j.log.events != [] && j.finishedAt.Some? && j.cause.Some?
          && var late := j.finishedAt.value - j.createdAt;
          j.log.events[|j.log.events| - 1] ==
          Exit(|j.log.events|, j.cause.value, j.io.truncated, if late > 0 then late else 0, j.exitCode, j.signal))
  }

  lemma InvTellsTruth(j: Job)
    requires Inv(j)
    ensures TellsTruth(j)
  {
  }

  /** Some move of the run is this action. */
  ghost predicate Happened(moves: seq<Move>, a: Action) {
    exists k :: 0 <= k < |moves| && moves[k].Act? && moves[k].a == a
  }

  /** The exit code and the signal are the return code of the process. */
  ghost predicate ExitExplained(j: Job, moves: seq<Move>) {
    && (forall rc :: j.exitCode == Some(rc) <==> rc >= 0 && Happened(moves, ProcessExits(rc)))
    && (forall n :: j.signal == Some(n) <==> n > 0 && Happened(moves, ProcessExits(-n)))
  }

  /** So they are; a cause is something that happened during the run, and what always ends a job did. */
  ghost predicate ExplainedBy(j: Job, moves: seq<Move>) {
    && ExitExplained(j, moves)
    && (j.cause.Some? ==> CausedBy(j.cause.value, moves))
    && (forall k :: 0 <= k < |moves| && moves[k].Act? && AlwaysEnds(moves[k].a) ==> j.cause.Some?)
  }

  /** Whatever the state of the job, after this its termination has begun. */
  ghost predicate AlwaysEnds(a: Action) {
    || a.ProcessExits? || a.SpawnFails? || a.WaitTimesOut? || a.WaitIsCancelled? || a.LimitHit? || a.ReadFails?
    || a.Shutdown?
  }

  ghost predicate CausedBy(cause: Cause, moves: seq<Move>) {
    match cause
    case Exited => exists rc :: rc >= 0 && Happened(moves, ProcessExits(rc))
    case Signalled => exists rc :: rc < 0 && Happened(moves, ProcessExits(rc))
    case TimedOut => Happened(moves, WaitTimesOut)
    case Cancelled => exists exited :: Happened(moves, Cancel(exited))
    case OutputLimit => exists name :: Happened(moves, LimitHit(name))
    case ShutDown => Happened(moves, Shutdown) || Happened(moves, WaitIsCancelled)
    case SpawnFailed => Happened(moves, SpawnFails) || exists name :: Happened(moves, ReadFails(name))
  }

  /** What happened in a run is what happened before its last move, and that move. */
  lemma HappenedThen(front: seq<Move>, m: Move)
    ensures forall a :: Happened(front + [m], a) <==> Happened(front, a) || (m.Act? && m.a == a)
  {
    var moves := front + [m];
    assert moves[|front|] == m;
    forall a | Happened(front, a) ensures Happened(moves, a) {
      var k :| 0 <= k < |front| && front[k].Act? && front[k].a == a;
      assert moves[k] == front[k];
    }
  }

  lemma CausedLater(cause: Cause, front: seq<Move>, moves: seq<Move>)
    requires CausedBy(cause, front) && forall a :: Happened(front, a) ==> Happened(moves, a)
    ensures CausedBy(cause, moves)
  {
  }

  /** How one step changes the facts about the exit. */
  lemma StepTells(j: Job, a: Action, now: int)
    requires Inv(j) && CanStep(j, a)
    ensures var t := Step(j, a, now);
            && (a.ProcessExits? && a.returncode >= 0 ==> t.exitCode == Some(a.returncode) && t.signal == j.signal)
            && (a.ProcessExits? && a.returncode < 0 ==> t.signal == Some(-a.returncode) && t.exitCode == j.exitCode)
            && (a.ProcessExits? ==> j.exitCode == None && j.signal == None)
            && (!a.ProcessExits? ==> t.exitCode == j.exitCode && t.signal == j.signal)
            && (j.cause.Some? ==> t.cause == j.cause)
            && (j.cause.None? ==> (t.cause.Some? <==> Ends(j, a)) && forall c :: t.cause == Some(c) ==> Causes(a, c))
            && (AlwaysEnds(a) ==> t.cause.Some?)
  {
  }

  /** The action begins the termination of a job whose termination has not begun. */
  ghost predicate Ends(j: Job, a: Action) {
    || a.ProcessExits? || a.SpawnFails? || a.WaitTimesOut? || a.WaitIsCancelled? || a.LimitHit? || a.ReadFails?
    || a.Shutdown? || (a.Cancel? && !(j.hasProcess && a.exited))
  }

  /** The action brings this cause with it. */
  ghost predicate Causes(a: Action, cause: Cause) {
    match cause
    case Exited => a.ProcessExits? && a.returncode >= 0
    case Signalled => a.ProcessExits? && a.returncode < 0
    case TimedOut => a.WaitTimesOut?
    case Cancelled => a.Cancel?
    case OutputLimit => a.LimitHit?
    case ShutDown => a.Shutdown? || a.WaitIsCancelled?
    case SpawnFailed => a.SpawnFails? || a.ReadFails?
  }

  lemma MoveIsExplained(j: Job, front: seq<Move>, m: Move)
    requires Inv(j) && Then(j, m).Some? && ExplainedBy(j, front)
    ensures ExplainedBy(Then(j, m).value, front + [m])
  {
    var t, moves := Then(j, m).value, front + [m];
    HappenedThen(front, m);
    ExitIsExplained(j, front, m);
    MoveIsCaused(j, front, m);
    if m.Act? { StepTells(j, m.a, m.now); }
    forall k | 0 <= k < |moves| && moves[k].Act? && AlwaysEnds(moves[k].a) ensures t.cause.Some? {
      assert k < |front| ==> moves[k] == front[k];
    }
  }

  lemma ExitIsExplained(j: Job, front: seq<Move>, m: Move)
    requires Inv(j) && Then(j, m).Some? && ExitExplained(j, front)
    ensures ExitExplained(Then(j, m).value, front + [m])
  {
    HappenedThen(front, m);
    if m.Act? { StepTells(j, m.a, m.now); }
  }

  lemma MoveIsCaused(j: Job, front: seq<Move>, m: Move)
    requires Inv(j) && Then(j, m).Some? && (j.cause.Some? ==> CausedBy(j.cause.value, front))
    ensures Then(j, m).value.cause.Some? ==> CausedBy(Then(j, m).value.cause.value, front + [m])
  {
    HappenedThen(front, m);
    if m.Act? {
      StepTells(j, m.a, m.now);
      assert Happened(front + [m], m.a);
    }
    if j.cause.Some? {
      CausedLater(j.cause.value, front, front + [m]);
    }
  }

  lemma {:induction false} RunIsExplained(request: Request, at: int, moves: seq<Move>)
    ensures RunJob(request, at, moves).Some? ==> ExplainedBy(RunJob(request, at, moves).value, moves)
  {
    if moves != [] && RunJob(request, at, moves).Some? {
      var front, m := moves[..|moves| - 1], moves[|moves| - 1];
      RunIsExplained(request, at, front);
      RunKeepsInv(request, at, front);
      assert moves == front + [m];
      HappenedThen(front, m);
      MoveIsExplained(RunJob(request, at, front).value, front, m);
    }
  }

  /** The whole truth about the end of a job: the exit event repeats the job's final facts, the code or signal
      in it is the return code of the process, and its cause happened. */
  lemma {:induction false} CauseIsTrue(request: Request, at: int, moves: seq<Move>)
    ensures RunJob(request, at, moves).Some? ==>
              var j := RunJob(request, at, moves).value;
              TellsTruth(j) && ExplainedBy(j, moves)
  {
    RunKeepsInv(request, at, moves);
    RunIsExplained(request, at, moves);
    if RunJob(request, at, moves).Some? {
      InvTellsTruth(RunJob(request, at, moves).value);
    }
  }

  /** The text of one stream in a list of events. */
  function TextOf(events: seq<Event>, name: StreamName): string {
    if events == [] then ""
    else
      var e := events[|events| - 1];
      TextOf(events[..|events| - 1], name) + if e.Output? && e.stream == name then e.text else ""
  }

  /** What one action makes of a stream: the text of a chunk of which something was admitted, or of the tail. */
  function Decoded(j: Job, a: Action, name: StreamName): string {
    match a
    case Chunk(n, chunk, text) => if n == name && Admits(j.io, chunk) > 0 then text else ""
    case StreamEnds(n, tail) => if n == name then tail else ""
    case _ => ""
  }

  /** All that was decoded from a stream during a run. */
  function Said(request: Request, at: int, moves: seq<Move>, name: StreamName): string {
    if moves == [] then ""
    else
      var front, m := moves[..|moves| - 1], moves[|moves| - 1];
      var before := RunJob(request, at, front);
      Said(request, at, front, name) + if before.Some? && m.Act? then Decoded(before.value, m.a, name) else ""
  }

  lemma AppendSays(events: seq<Event>, e: Event, name: StreamName)
    ensures TextOf(events + [e], name) == TextOf(events, name) + if e.Output? && e.stream == name then e.text else ""
  {
    assert (events + [e])[..|events|] == events;
  }

  lemma StepSays(j: Job, a: Action, now: int, name: StreamName)
    requires CanStep(j, a)
    ensures TextOf(Step(j, a, now).log.events, name) == TextOf(j.log.events, name) + Decoded(j, a, name)
  {
    match a
    case DriveStarts => FinishSays(NoProcess(j), now, name);
    case SpawnFails => FinishSays(NoProcess(BeginTermination(j, SpawnFailed)), now, name);
    case ProcessExits(rc) =>
      FinishSays(BeginTermination(Reap(j, rc), if rc < 0 then Signalled else Exited), now, name);
    case DriveReturns => FinishSays(j, now, name);
    case Chunk(n, chunk, text) => OutputSays(j.log, n, text, name);
    case StreamEnds(n, tail) => EndSays(j, n, tail, now, name);
    case _ =>
  }

  /** A text is one output event, or none when it is empty. */
  lemma OutputSays(log: Log, n: StreamName, text: string, name: StreamName)
    ensures TextOf((if text != "" then AppendOutput(log, n, text) else log).events, name) ==
            TextOf(log.events, name) + if n == name then text else ""
  {
    AppendSays(log.events, Output(log.nextSeq, n, text), name);
  }

  lemma EndSays(j: Job, n: StreamName, tail: string, now: int, name: StreamName)
    ensures TextOf(EndStream(j, n, tail, now).log.events, name) ==
            TextOf(j.log.events, name) + if n == name then tail else ""
  {
    var log := if tail != "" then AppendOutput(j.log, n, tail) else j.log;
    OutputSays(j.log, n, tail, name);
    FinishSays(j.(log := log, io := WithStage(j.io, n, Eof)), now, name);
  }

  /** The exit event is no output. */
  lemma FinishSays(j: Job, now: int, name: StreamName)
    ensures TextOf(Finish(j, now).log.events, name) == TextOf(j.log.events, name)
  {
    if MayFinish(j) { AppendSays(j.log.events, ExitEvent(j, now), name); }
  }

  /** Nothing decoded is lost, repeated, reordered or attributed to the other stream, in any run. */
  lemma {:induction false} OutputIsDelivered(request: Request, at: int, moves: seq<Move>, name: StreamName)
    ensures RunJob(request, at, moves).Some? ==>
              TextOf(RunJob(request, at, moves).value.log.events, name) == Said(request, at, moves, name)
  {
    if moves != [] && RunJob(request, at, moves).Some? {
      var front, m := moves[..|moves| - 1], moves[|moves| - 1];
      OutputIsDelivered(request, at, front, name);
      if m.Act? {
        StepSays(RunJob(request, at, front).value, m.a, m.now, name);
      }
    }
  }

  /** A job that nobody disturbs: it starts, its process is spawned and exits, both streams end, the drive
      coroutine returns; every step is possible when its turn comes, and the job is finished with the process's
      return code, the tails that were left in the decoders, and its exit event. */
  lemma PlainRun(request: Request, at: int, rc: int, out: string, err: string, now: int)
    requires at <= now
    ensures var started := Step(NewJob(request, at), DriveStarts, at);
            && CanStep(started, Spawned)
            && var exited := Step(started, Spawned, at);
            && exited.state.Running? && exited.hasProcess && CanStep(exited, ProcessExits(rc))
            && Drains(Step(exited, ProcessExits(rc), at), rc, out, err, now)
  {
    var started := Step(NewJob(request, at), DriveStarts, at);
    var reaped := Step(Step(started, Spawned, at), ProcessExits(rc), at);
    assert reaped.log.events == [];
    DrainedIsDone(reaped, rc, out, err, now);
  }

  lemma DrainedIsDone(reaped: Job, rc: int, out: string, err: string, now: int)
    requires reaped.state.Terminating? && reaped.drive.Draining? && reaped.processReaped && reaped.reservationReleased
    requires reaped.io.out.stage.Reading? && reaped.io.err.stage.Reading? && reaped.log.events == []
    requires reaped.cause == Some(if rc < 0 then Signalled else Exited)
    requires reaped.exitCode == (if rc < 0 then None else Some(rc))
    requires reaped.signal == (if rc < 0 then Some(-rc) else None)
    ensures Drains(reaped, rc, out, err, now)
  {
    HalfDrained(reaped, out, now);
    var half := EndStream(reaped, Stdout, out, now);
    FullyDrained(half, err, now);
    forall name
      ensures TextOf(EndStream(half, Stderr, err, now).log.events, name) == if name.Stdout? then out else err
    {
      DrainSays(reaped, out, err, now, name);
    }
  }

  /** One stream has ended: the job waits for the other. */
  lemma HalfDrained(j: Job, out: string, now: int)
    requires j.io.out.stage.Reading? && j.io.err.stage.Reading?
    ensures var half := EndStream(j, Stdout, out, now);
            half == j.(log := half.log, io := WithStage(j.io, Stdout, Eof))
  {
  }

  /** Both have: the job is finished, and nothing but its state, log and finish time differs. */
  lemma FullyDrained(j: Job, err: string, now: int)
    requires j.state.Terminating? && j.cause.Some? && j.processReaped
    requires j.io.out.stage.Eof? && j.io.err.stage.Reading?
    ensures var done := EndStream(j, Stderr, err, now);
            && done == j.(log := done.log, io := WithStage(j.io, Stderr, Eof), state := Finished,
                          finishedAt := Some(now))
            && Finish(done, now) == done
  {
  }

  lemma DrainSays(reaped: Job, out: string, err: string, now: int, name: StreamName)
    requires reaped.log.events == []
    ensures var done := EndStream(EndStream(reaped, Stdout, out, now), Stderr, err, now);
            TextOf(done.log.events, name) == if name.Stdout? then out else err
  {
    EndSays(reaped, Stdout, out, now, name);
    EndSays(EndStream(reaped, Stdout, out, now), Stderr, err, now, name);
    assert out + "" == out;
  }

  /** The reaped process's streams end one after the other; then there is nothing left to wait for. */
  ghost predicate Drains(reaped: Job, rc: int, out: string, err: string, now: int) {
    && reaped.state.Terminating? && CanStep(reaped, StreamEnds(Stdout, out))
    && var half := Step(reaped, StreamEnds(Stdout, out), now);
    && half.state.Terminating? && !CanStep(half, DriveReturns) && CanStep(half, StreamEnds(Stderr, err))
    && var done := Step(half, StreamEnds(Stderr, err), now);
    && CanStep(done, DriveReturns)
    && var j := Step(done, DriveReturns, now);
    && j.state.Finished? && j.drive.Returned? && j.finishedAt == Some(now) && j.reservationReleased
    && j.cause == Some(if rc < 0 then Signalled else Exited)
    && j.exitCode == (if rc < 0 then None else Some(rc)) && j.signal == (if rc < 0 then Some(-rc) else None)
    && (forall name :: TextOf(j.log.events, name) == if name.Stdout? then out else err)
  }

  /** The shared cap, whatever the order in which the two readers get their chunks. */
  lemma {:induction false} OutputCap(request: Request, at: int, moves: seq<Move>)
    ensures RunJob(request, at, moves).Some? ==>
              var io := RunJob(request, at, moves).value.io;
              var total := |io.out.read| + |io.err.read|;
              && io.outputBytes == |io.out.accepted| + |io.err.accepted| == Min(OUTPUT_LIMIT_BYTES, total)
              && (io.truncated <==> total > OUTPUT_LIMIT_BYTES)
              && Prefix(io.out.accepted, io.out.read) && Prefix(io.err.accepted, io.err.read)
  {
    RunKeepsInv(request, at, moves);
  }

  /** A reader that hit the cap goes on reading and discarding; one whose stream failed reads no more and ends it
      without a tail; and either way the other stream is left alone. */
  lemma TroubledReaders(j: Job, name: StreamName, other: StreamName, chunk: Bytes, text: string, now: int)
    requires other != name
    ensures CanStep(j, LimitHit(name)) ==>
              var t := Step(j, LimitHit(name), now);
              && StreamOf(t.io, name) == StreamOf(j.io, name).(stage := Reading)
              && StreamOf(t.io, other) == StreamOf(j.io, other) && t.io.outputBytes == j.io.outputBytes
    ensures CanStep(j, ReadFails(name)) ==>
              var t := Step(j, ReadFails(name), now);
              && CanStep(t, StreamEnds(name, "")) && !CanStep(t, Chunk(name, chunk, text))
              && StreamOf(Step(t, StreamEnds(name, ""), now).io, name).stage.Eof?
              && StreamOf(t.io, other) == StreamOf(j.io, other)
  {
  }

  /** A wait that is given up is forgotten, and no other. */
  lemma GivenUpIsForgotten(j: Job, f: nat, g: nat, now: int)
    requires CanStep(j, StopWaiting(f)) && g != f
    ensures var log := Step(j, StopWaiting(f), now).log;
            && f !in log.futures && f !in log.waiters && log.events == j.log.events
            && (g in log.waiters <==> g in j.log.waiters)
            && (g in j.log.futures ==> g in log.futures && log.futures[g] == j.log.futures[g])
  {
  }

  /** No lost wakeup: whoever is still suspended is registered and has seen every event there is, and there
      will be more. */
  lemma {:induction false} NoLostWakeup(request: Request, at: int, moves: seq<Move>, f: nat)
    ensures RunJob(request, at, moves).Some? ==>
              var j := RunJob(request, at, moves).value;
              f in j.log.futures && !j.log.futures[f].resolved ==>
                && f in j.log.waiters && !j.state.Finished?
                && !HasEventAfter(j.log.events, j.log.futures[f].after)
  {
    RunKeepsInv(request, at, moves);
  }
}

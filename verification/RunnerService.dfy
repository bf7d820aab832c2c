/** `RunnerService` and its `RunnerJob` objects: each locked section does to the fields what the table
    functions say. */
module RunnerService {
  import opened Options
  import opened RunnerJob
  import opened RunnerRank
  import opened RunnerTable
  import opened RunnerPrune
  import RunnerInvariants
  import RunnerSystem
  import RunnerStreaming

  class JobRecord {
    const jobId: nat
    const request: Request
    const createdAt: int
    var state: JobState
    var cause: Option<Cause>
    var exitCode: Option<int>
    var signal: Option<int>
    var truncated: bool
    var outputBytes: nat
    var events: seq<Event>
    var nextSeq: nat
    var finishedAt: Option<int>
    var processReaped: bool
    var hasProcess: bool
    var reservationReleased: bool
    var readerCount: nat
    var out: Stream
    var err: Stream
    var drive: Drive
    var waiters: set<nat>
    var futures: map<nat, Future>

    function LogValue(): Log
      reads this
    {
      Log(events, nextSeq, waiters, futures)
    }

    function IoValue(): Io
      reads this
    {
      Io(out, err, outputBytes, truncated)
    }

    function Value(): Job
      reads this
    {
      Job(request, state, cause, exitCode, signal, createdAt, finishedAt, processReaped, hasProcess,
          reservationReleased, readerCount, drive, IoValue(), LogValue())
    }

    constructor (id: nat, r: Request, now: int)
      ensures jobId == id && Value() == NewJob(r, now)
    {
      jobId, request, createdAt := id, r, now;
      state, cause, exitCode, signal := Starting, None, None, None;
      truncated, outputBytes, events, nextSeq := false, 0, [], 1;
      finishedAt, processReaped, hasProcess, reservationReleased, readerCount := None, false, false, false, 0;
      out, err, drive := Stream(Unopened, [], []), Stream(Unopened, [], []), Queued;
      waiters, futures := {}, map[];
    }

    /** Appends an event and wakes everybody waiting. */
    method AppendEvent(e: Event)
      requires e.n == nextSeq
      modifies this`events, this`nextSeq, this`waiters, this`futures
      ensures LogValue() == Append(old(LogValue()), e)
    {
      events, nextSeq := events + [e], nextSeq + 1;
      NotifyWaiters();
    }

    /** `_notify_waiters`. */
    method NotifyWaiters()
      modifies this`waiters, this`futures
      ensures waiters == {}
      ensures futures == map f | f in old(futures) ::
                           if f in old(waiters) then old(futures)[f].(resolved := true) else old(futures)[f]
    {
      var left := waiters;
      waiters := {};
      ghost var done: set<nat> := {};
      while left != {}
        invariant left + done == old(waiters) && left !! done && waiters == {}
        invariant futures == map f | f in old(futures) ::
                               if f in done then old(futures)[f].(resolved := true) else old(futures)[f]
        decreases |left|
      {
        var f :| f in left;
        if f in futures && !futures[f].resolved {
          futures := futures[f := futures[f].(resolved := true)];
        }
        left, done := left - {f}, done + {f};
      }
      assert done == old(waiters);
    }

    /** The first cause is taken; the result says whether the reservation is to be released. */
    method TakeCause(cause: Cause) returns (release: bool)
      requires this.cause.None?
      modifies this
      ensures Value() == BeginTermination(old(Value()), cause) && release == !old(reservationReleased)
    {
      this.cause, state := Some(cause), Terminating;
      release := !reservationReleased;
      reservationReleased := true;
    }

    /** The job's part of `_finish_locked`: the exit event closes the log. */
    method Conclude(now: int)
      requires MayFinish(Value())
      modifies this
      ensures Value() == Finish(old(Value()), now)
    {
      var e := ExitEvent(Value(), now);
      state, finishedAt := Finished, Some(now);
      AppendEvent(e);
    }

    /** `wait_for_update` registers a caller who has seen everything of an unfinished job. */
    method Register(f: nat, after: nat) returns (suspended: bool)
      requires f !in futures
      modifies this`waiters, this`futures
      ensures Value() == Step(old(Value()), WaitForUpdate(f, after), 0)
      ensures suspended == (f in futures)
    {
      var newer := NewerEvents(after);
      suspended := !state.Finished? && newer == [];
      assert newer != [] ==> newer[0] in newer;
      if suspended {
        waiters, futures := waiters + {f}, futures[f := Future(after, false)];
      }
    }

    /** The loop of `events_after`. */
    method NewerEvents(after: nat) returns (newer: seq<Event>)
      ensures newer == RunnerStreaming.EventsAfter(events, after)
      ensures newer == [] <==> !HasEventAfter(events, after)
    {
      newer := [];
      for n := 0 to |events|
        invariant newer == RunnerStreaming.EventsAfter(events[..n], after)
        invariant newer == [] <==> forall i :: 0 <= i < n ==> events[i].n <= after
      {
        assert events[..n + 1][..n] == events[..n];
        if events[n].n > after {
          newer := newer + [events[n]];
        }
      }
      assert events[..|events|] == events;
    }

    /** The chunk is counted against the shared cap, and the admitted prefix taken. */
    method CountChunk(name: StreamName, chunk: Bytes) returns (accepted: Bytes, overflow: bool)
      modifies this`out, this`err, this`outputBytes, this`truncated
      ensures IoValue() == TakeChunk(old(IoValue()), name, chunk)
      ensures accepted == chunk[..Admits(old(IoValue()), chunk)] && overflow == (|accepted| < |chunk|)
    {
      var remaining: int := OUTPUT_LIMIT_BYTES - outputBytes;
      accepted := if remaining <= 0 then [] else if remaining < |chunk| then chunk[..remaining] else chunk;
      assert chunk[..|chunk|] == chunk && chunk[..0] == [];
      var stream := StreamOf(IoValue(), name);
      overflow := |chunk| > |accepted|;
      stream := Stream(if overflow then Overflowed else stream.stage, stream.read + chunk, stream.accepted + accepted);
      if name.Stdout? { out := stream; } else { err := stream; }
      outputBytes := outputBytes + |accepted|;
      truncated := truncated || overflow;
    }

    /** One chunk of `_read_stream` under the output lock; the result says whether the cap overflowed. */
    method ReadChunk(name: StreamName, chunk: Bytes, text: string) returns (overflow: bool)
      requires CanStep(Value(), Chunk(name, chunk, text))
      modifies this
      ensures Value() == Step(old(Value()), Chunk(name, chunk, text), 0)
      ensures overflow == (Admits(old(IoValue()), chunk) < |chunk|)
    {
      var accepted;
      accepted, overflow := CountChunk(name, chunk);
      if accepted != [] && text != "" {
        AppendEvent(Output(nextSeq, name, text));
      }
    }
  }

  class Service {
    const cfg: Config
    var jobs: map<nat, JobRecord>               // `_jobs`
    var made: map<nat, JobRecord>               // every job object ever made, retained or not
    var index: map<Key, Entry>
    var activeByLesson: map<nat, nat>
    var activeTotal: int
    var accepting: bool
    var clock: int
    var leases: map<nat, Lease>
    ghost var heap: map<nat, Job>               // what the objects of `made` hold

    /** The object numbered `id` holds what the heap says, and is the one `_jobs` holds if it holds one. */
    ghost predicate ObjectOk(id: nat)
      requires id in made
      reads this`jobs, this`made, this`heap, made.Values
    {
      && made[id].jobId == id && id in heap && heap[id] == made[id].Value()
      && (id in jobs ==> jobs[id] == made[id])
    }

    ghost predicate Valid()
      reads this`jobs, this`made, this`heap, made.Values
    {
      && heap.Keys == made.Keys && jobs.Keys <= made.Keys
      && (forall id {:trigger ObjectOk(id)} :: id in made ==> ObjectOk(id))
      && (forall id: nat :: id in made <==> id < |made|)
    }

    /** The tables the service's fields and job objects stand for. */
    ghost function State(): Table
      reads this
    {
      Table(heap, jobs.Keys, index, activeByLesson, activeTotal, accepting, clock, leases)
    }

    constructor (cfg: Config, now: int)
      ensures Valid() && State() == EmptyTable(now) && this.cfg == cfg && made == map[]
    {
      this.cfg := cfg;
      jobs, made, index, activeByLesson, activeTotal := map[], map[], map[], map[], 0;
      accepting, clock, leases, heap := true, now, map[], map[];
    }

    /** `_release_locked`, for a job whose reservation has not been released. */
    method ReleaseLocked(lesson: nat)
      modifies this`activeTotal, this`activeByLesson
      ensures activeTotal == old(activeTotal) - 1
      ensures activeByLesson == OneLess(old(activeByLesson), lesson)
    {
      activeTotal := activeTotal - 1;
      var count: int := CountIn(activeByLesson, lesson);
      var remaining := count - 1;
      if remaining > 0 {
        activeByLesson := activeByLesson[lesson := remaining];
      } else {
        activeByLesson := activeByLesson - {lesson};
      }
    }

    /** `_begin_termination_locked`: the first cause wins and gives the reservation back. */
    method BeginTerminationLocked(job: JobRecord, cause: Cause) returns (won: bool)
      requires Valid() && job.jobId in made && made[job.jobId] == job
      requires job.reservationReleased <==> job.cause.Some?
      modifies this`activeTotal, this`activeByLesson, this`heap, job
      ensures Valid() && State() == Begin(old(State()), job.jobId, cause)
      ensures won == old(job.cause.None?)
    {
      assert ObjectOk(job.jobId);
      won := job.cause.None?;
      if won {
        var release := StopJob(job, cause);
        if release {
          ReleaseLocked(job.request.lesson);
        }
      }
    }

    method StopJob(job: JobRecord, cause: Cause) returns (release: bool)
      requires Valid() && job.jobId in made && made[job.jobId] == job && job.cause.None?
      modifies this`heap, job
      ensures Valid() && release == !old(job.reservationReleased)
      ensures heap == old(heap)[job.jobId := BeginTermination(old(job.Value()), cause)]
    {
      assert ObjectOk(job.jobId);
      release := job.TakeCause(cause);
      OthersUnchanged(job);
      StoreJob(job);
    }

    /** The heap follows the one object that was changed. */
    ghost method StoreJob(job: JobRecord)
      requires job.jobId in made && made[job.jobId] == job
      requires heap.Keys == made.Keys && jobs.Keys <= made.Keys && forall id: nat :: id in made <==> id < |made|
      requires job.jobId in jobs ==> jobs[job.jobId] == job
      requires forall id {:trigger ObjectOk(id)} :: id in made && id != job.jobId ==> ObjectOk(id)
      modifies this`heap
      ensures Valid() && heap == old(heap)[job.jobId := job.Value()]
    {
      heap := heap[job.jobId := job.Value()];
      forall id | id in made ensures ObjectOk(id) {
        if id != job.jobId { assert old(ObjectOk(id)); }
      }
    }

    twostate lemma OthersUnchanged(job: JobRecord)
      requires old(Valid()) && made == old(made) && jobs == old(jobs) && heap == old(heap)
      requires job.jobId in made && made[job.jobId] == job
      requires forall id :: id in made && made[id] != job ==> unchanged(made[id])
      ensures forall id {:trigger ObjectOk(id)} :: id in made && id != job.jobId ==> ObjectOk(id)
    {
      forall id | id in made && id != job.jobId ensures ObjectOk(id) {
        assert old(ObjectOk(id));
        assert unchanged(made[id]);
      }
    }

    /** The finished jobs in the order of admission, with their finish times and reader counts. */
    method CollectTerminal() returns (ids: seq<nat>, times: Times, readers: map<nat, nat>)
      requires Valid()
      ensures forall i, j :: 0 <= i < j < |ids| ==> ids[i] < ids[j]
      ensures Describes(State(), ids, times, readers)
    {
      ids, times, readers := [], map[], map[];
      for n := 0 to |made|
        invariant forall i :: 0 <= i < |ids| ==> ids[i] < n
        invariant forall i, j :: 0 <= i < j < |ids| ==> ids[i] < ids[j]
        invariant DescribesBelow(State(), n, ids, times, readers)
      {
        assert ObjectOk(n);
        if n in jobs && jobs[n].state.Finished? && jobs[n].finishedAt.Some? {
          OneMoreTerminal(State(), n, ids, times, readers);
          ids := ids + [n];
          times := times[n := jobs[n].finishedAt.value];
          readers := readers[n := jobs[n].readerCount];
        }
      }
    }

    /** `_prune_locked`. */
    method PruneLocked()
      requires Valid()
      modifies this`jobs, this`index
      ensures Valid() && State() == Prune(old(State()), cfg)
    {
      var dropped := ChooseLocked();
      ghost var was := State();
      jobs := jobs - dropped;
      ShrunkStaysValid();
      DropLapsed();
      PruneIs(was, cfg, jobs.Keys, index);
    }

    /** Which finished jobs are to go. */
    method ChooseLocked() returns (dropped: set<nat>)
      requires Valid()
      ensures jobs.Keys - dropped == PrunedJobs(State(), cfg)
    {
      var ids, times, readers := CollectTerminal();
      assert forall i :: 0 <= i < |ids| ==> ids[i] in Elements(ids);
      dropped := ChooseDropped(ids, times, readers, clock, cfg.retention, cfg.maxTerminal);
      DroppedDoNotStay(State(), cfg, ids, times, readers, dropped);
    }

    /** Taking entries out of `_jobs` leaves every object as it is. */
    twostate lemma ShrunkStaysValid()
      requires old(Valid()) && made == old(made) && heap == old(heap) && jobs.Keys <= old(jobs).Keys
      requires forall id :: id in jobs ==> jobs[id] == old(jobs)[id]
      requires forall id :: id in made ==> unchanged(made[id])
      ensures Valid()
    {
      forall id | id in made ensures ObjectOk(id) {
        assert old(ObjectOk(id)) && unchanged(made[id]);
      }
    }

    /** Expired entries of jobs no longer held are popped. */
    method DropLapsed()
      requires Valid()
      modifies this`index
      ensures index == map k | k in old(index) && !Lapsed(old(index)[k], clock, jobs.Keys) :: old(index)[k]
    {
      var left := index.Keys;
      while left != {}
        invariant left <= old(index).Keys
        invariant index == map k | k in old(index) && (k in left || !Lapsed(old(index)[k], clock, jobs.Keys))
                             :: old(index)[k]
        decreases |left|
      {
        var k :| k in left;
        var e := index[k];
        if e.expires.Some? && clock >= e.expires.value && e.jobId !in jobs {
          index := index - {k};
        }
        left := left - {k};
      }
    }

    /** `_finish_locked`. */
    method FinishLocked(job: JobRecord)
      requires Valid() && job.jobId in made && made[job.jobId] == job
      requires job.state.Terminating? ==> job.cause.Some?
      modifies this`jobs, this`index, this`heap, job
      ensures Valid() && State() == Apply(old(State()), cfg, job.jobId, Finish(old(job.Value()), clock))
    {
      assert ObjectOk(job.jobId);
      FinishApplies(State(), cfg, job.jobId);
      if job.state.Terminating? && job.processReaped && job.out.stage.Eof? && job.err.stage.Eof? {
        ConcludeJob(job);
        AgeEntry(job);
        PruneLocked();
      }
    }

    method ConcludeJob(job: JobRecord)
      requires Valid() && job.jobId in made && made[job.jobId] == job && MayFinish(job.Value())
      modifies this`heap, job
      ensures Valid() && job.Value() == Finish(old(job.Value()), clock)
      ensures heap == old(heap)[job.jobId := job.Value()]
    {
      assert ObjectOk(job.jobId);
      job.Conclude(clock);
      OthersUnchanged(job);
      StoreJob(job);
    }

    /** The entry naming a finished job starts to age. */
    method AgeEntry(job: JobRecord)
      requires Valid() && job.jobId in made && made[job.jobId] == job
      requires job.state.Finished? && job.finishedAt == Some(clock)
      modifies this`index
      ensures job.jobId in heap && IsTerminal(old(State()), job.jobId)
      ensures State() == StartExpiry(old(State()), cfg, job.jobId)
    {
      assert ObjectOk(job.jobId);
      var k := KeyOf(job.request);
      if k in index && index[k].jobId == job.jobId {
        index := index[k := index[k].(expires := Some(clock + cfg.retention))];
      }
    }

    /** `_replay_locked`. */
    method ReplayLocked(r: Request) returns (replay: Replay)
      requires Valid()
      ensures replay == RunnerTable.ReplayLocked(State(), r)
    {
      var k := KeyOf(r);
      if k !in index {
        return Absent;
      }
      var saved := index[k];
      if (saved.block, saved.rev) != (r.block, r.rev) {
        return Conflict;
      }
      if saved.jobId !in jobs {
        return Missing;
      }
      return Replayed(saved.jobId);
    }

    /** The checks both locked sections of `admit` begin with. */
    method EarlyLocked(r: Request) returns (early: Option<RunnerSystem.Result>)
      requires Valid()
      ensures early == RunnerSystem.Early(State(), r)
    {
      var replay := ReplayLocked(r);
      match replay
      case Conflict => early := Some(RunnerSystem.Refused(RunnerSystem.KeyConflict));
      case Missing => early := Some(RunnerSystem.Refused(RunnerSystem.JobGone));
      case Replayed(id) => early := Some(RunnerSystem.Repeated(id));
      case Absent => early := if accepting then None else Some(RunnerSystem.Refused(RunnerSystem.ShuttingDown));
    }

    /** `preflight`: None and the permit's charge, or the answer; the hook is asked last. */
    method Preflight(r: Request, rate: RunnerSystem.Rate)
      returns (refused: Option<RunnerSystem.Result>, charge: Option<nat>)
      requires Valid()
      modifies this`jobs, this`index
      ensures Valid() && State() == Prune(old(State()), cfg)
      ensures (refused, charge) == RunnerSystem.Permission(State(), cfg, r, rate)
    {
      PruneLocked();
      refused := EarlyLocked(r);
      if refused.None? {
        refused := RoomLocked(r);
      }
      if refused.Some? {
        return refused, None;
      }
      match rate
      case NoHook => charge := None;
      case Denied => return Some(RunnerSystem.Refused(RunnerSystem.RateLimited)), None;
      case Charge(token) => charge := Some(token);
    }

    /** The second locked section of `admit`: the answer, and the charge to be given back. */
    method AdmitLocked(r: Request, charge: Option<nat>, rate: RunnerSystem.Rate)
      returns (result: RunnerSystem.Result, refund: Option<nat>)
      requires Valid()
      modifies this
      ensures Valid()
      ensures var t := Prune(old(State()), cfg);
              && (result, refund) == RunnerSystem.Decide(t, cfg, r, charge, rate)
              && State() == (if result.Admitted? then Reserve(t, r) else t)
    {
      PruneLocked();
      result, refund := AdmitPruned(r, charge, rate);
    }

    method AdmitPruned(r: Request, charge: Option<nat>, rate: RunnerSystem.Rate)
      returns (result: RunnerSystem.Result, refund: Option<nat>)
      requires Valid()
      modifies this`jobs, this`made, this`heap, this`index, this`activeByLesson, this`activeTotal
      ensures Valid()
      ensures (result, refund) == RunnerSystem.Decide(old(State()), cfg, r, charge, rate)
      ensures State() == if result.Admitted? then Reserve(old(State()), r) else old(State())
    {
      var refused;
      refused, refund := RefuseLocked(r, charge, rate);
      if refused.Some? {
        return refused.value, refund;
      }
      var id := ReserveLocked(r);
      return RunnerSystem.Admitted(id), None;
    }

    /** Everything but the reservation: the answer of a request that is not admitted, if it is not. */
    method RefuseLocked(r: Request, charge: Option<nat>, rate: RunnerSystem.Rate)
      returns (refused: Option<RunnerSystem.Result>, refund: Option<nat>)
      requires Valid()
      ensures refused.Some? ==>
                && (refused.value, refund) == RunnerSystem.Decide(State(), cfg, r, charge, rate)
                && !refused.value.Admitted?
      ensures refused.None? ==>
                RunnerSystem.Decide(State(), cfg, r, charge, rate) == (RunnerSystem.Admitted(|heap|), None)
    {
      var early := EarlyLocked(r);
      if early.Some? {
        return early, charge;
      }
      if rate.Denied? {
        return Some(RunnerSystem.Refused(RunnerSystem.RateLimited)), charge;
      }
      var full := RoomLocked(r);
      return full, if rate.Charge? then Some(rate.token) else charge;
    }

    /** The capacity checks, the lesson's first. */
    method RoomLocked(r: Request) returns (full: Option<RunnerSystem.Result>)
      ensures full == RunnerSystem.Full(State(), cfg, r.lesson)
    {
      full := None;
      if CountIn(activeByLesson, r.lesson) >= cfg.perLessonLimit {
        full := Some(RunnerSystem.Refused(RunnerSystem.LessonBusy));
      } else if activeTotal >= cfg.globalLimit {
        full := Some(RunnerSystem.Refused(RunnerSystem.RunnerBusy));
      }
    }

    /** A fresh job object, its index entry and its reservation. */
    method ReserveLocked(r: Request) returns (id: nat)
      requires Valid()
      modifies this`jobs, this`made, this`heap, this`index, this`activeByLesson, this`activeTotal
      ensures Valid() && id == |old(heap)| && State() == Reserve(old(State()), r)
    {
      ghost var was := State();
      id := AddJob(r);
      CountAdmission(r, id);
      ReserveIs(was, r, State());
    }

    method CountAdmission(r: Request, id: nat)
      requires Valid()
      modifies this`index, this`activeByLesson, this`activeTotal
      ensures Valid()
      ensures State() == old(State()).(
                         index := old(index)[KeyOf(r) := Entry(r.block, r.rev, id, None)],
                         activeByLesson := old(activeByLesson)[r.lesson := CountIn(old(activeByLesson), r.lesson) + 1],
                         activeTotal := old(activeTotal) + 1)
    {
      index := index[KeyOf(r) := Entry(r.block, r.rev, id, None)];
      activeByLesson := activeByLesson[r.lesson := CountIn(activeByLesson, r.lesson) + 1];
      activeTotal := activeTotal + 1;
    }

    /** A fresh object takes the next number. */
    method AddJob(r: Request) returns (id: nat)
      requires Valid()
      modifies this`jobs, this`made, this`heap
      ensures Valid() && id == |old(heap)|
      ensures State() == old(State()).(heap := old(heap)[id := NewJob(r, clock)], retained := old(jobs).Keys + {id})
    {
      SameKeysSameSize(heap, made);
      id := |made|;
      var job := new JobRecord(id, r, clock);
      Enroll(job);
    }

    method Enroll(job: JobRecord)
      requires Valid() && job.jobId == |made|
      modifies this`jobs, this`made, this`heap
      ensures Valid()
      ensures heap == old(heap)[job.jobId := job.Value()] && jobs.Keys == old(jobs).Keys + {job.jobId}
    {
      OneKeyMore(made, job.jobId, job);
      assert job.jobId !in made;
      made, jobs, heap := made[job.jobId := job], jobs[job.jobId := job], heap[job.jobId := job.Value()];
      EnrolledStaysValid(job);
    }

    twostate lemma EnrolledStaysValid(job: JobRecord)
      requires old(Valid()) && job.jobId !in old(made) && job.jobId == |old(made)| && |made| == |old(made)| + 1
      requires made == old(made)[job.jobId := job] && jobs == old(jobs)[job.jobId := job]
      requires heap == old(heap)[job.jobId := job.Value()]
      requires forall id :: id in old(made) ==> unchanged(old(made)[id])
      ensures Valid()
    {
      forall x | x in made ensures ObjectOk(x) {
        if x != job.jobId { assert old(ObjectOk(x)) && unchanged(old(made)[x]); }
      }
    }

    /** The jobs somebody reads, counted. */
    method CountBeingRead() returns (n: nat)
      requires Valid()
      ensures n == |BeingRead(State())|
    {
      n := 0;
      ghost var seen: set<nat> := {};
      for id := 0 to |made|
        invariant n == |seen| && seen == set x | x in BeingRead(State()) && x < id
      {
        assert ObjectOk(id);
        if id in jobs && jobs[id].readerCount > 0 {
          n, seen := n + 1, seen + {id};
        }
      }
      assert seen == BeingRead(State());
    }

    /** `attach_reader`. */
    method AttachReader(l: nat, id: nat) returns (ok: bool)
      requires Valid() && l !in leases
      modifies this`jobs, this`index, this`heap, this`leases, made.Values
      ensures Valid() && ok == (l in leases)
      ensures State() == RunnerSystem.TableStep(old(State()), cfg, RunnerSystem.AttachReader(l, id))
    {
      PruneLocked();
      ok := AttachPruned(l, id);
    }

    /** Both limits on readers: two to a job, and so many jobs being read. */
    method MayRead(id: nat) returns (ok: bool)
      requires Valid()
      ensures ok == MayAttach(State(), cfg, id)
    {
      ok := false;
      if id in jobs {
        assert ObjectOk(id);
        if jobs[id].readerCount == 0 {
          var reading := CountBeingRead();
          ok := reading < cfg.maxTerminal;
        } else {
          ok := jobs[id].readerCount < 2;
        }
      }
    }

    method AttachPruned(l: nat, id: nat) returns (ok: bool)
      requires Valid() && l !in leases
      modifies this`heap, this`leases, made.Values
      ensures Valid() && ok == (l in leases) && ok == MayAttach(old(State()), cfg, id)
      ensures State() == if ok then Attach(old(State()), cfg, l, id) else old(State())
    {
      ok := MayRead(id);
      if ok {
        Lend(l, id);
      }
    }

    method Lend(l: nat, id: nat)
      requires Valid() && MayAttach(State(), cfg, id)
      modifies this`heap, this`leases, made.Values
      ensures Valid() && l in leases && State() == Attach(old(State()), cfg, l, id)
    {
      AddReader(id);
      RecordLease(l, Lease(id, true));
    }

    method RecordLease(l: nat, lease: Lease)
      requires Valid()
      modifies this`leases
      ensures Valid() && State() == old(State()).(leases := old(leases)[l := lease])
    {
      leases := leases[l := lease];
    }

    method AddReader(id: nat)
      requires Valid() && id in jobs
      modifies this`heap, made.Values
      ensures Valid() && id in old(heap) && State() == SetReaders(old(State()), id, old(heap)[id].readerCount + 1)
    {
      assert ObjectOk(id);
      ChangeReaders(jobs[id], jobs[id].readerCount + 1);
    }

    method ChangeReaders(job: JobRecord, n: nat)
      requires Valid() && job.jobId in made && made[job.jobId] == job
      modifies this`heap, job`readerCount
      ensures Valid() && State() == SetReaders(old(State()), job.jobId, n)
    {
      assert ObjectOk(job.jobId);
      job.readerCount := n;
      OthersUnchanged(job);
      StoreJob(job);
    }

    /** `detach_reader`. */
    method DetachReader(l: nat)
      requires Valid() && l in leases && leases[l].job in made
      modifies this`jobs, this`index, this`heap, this`leases, made.Values
      ensures Valid()
      ensures State() == RunnerSystem.TableStep(old(State()), cfg, RunnerSystem.DetachReader(l))
    {
      if leases[l].active {
        var id := leases[l].job;
        DropReader(id);
        RecordLease(l, Lease(id, false));
        PruneLocked();
      }
    }

    method DropReader(id: nat)
      requires Valid() && id in made
      modifies this`heap, made.Values
      ensures Valid() && id in old(heap)
      ensures State() == var n := old(heap)[id].readerCount;
                         if n > 0 then SetReaders(old(State()), id, n - 1) else old(State())
    {
      assert ObjectOk(id);
      if made[id].readerCount > 0 {
        ChangeReaders(made[id], made[id].readerCount - 1);
      }
    }

    /** `events_after`. */
    method EventsAfter(id: nat, after: nat) returns (found: bool, newer: seq<Event>, state: JobState)
      requires Valid()
      modifies this`jobs, this`index
      ensures Valid() && State() == Prune(old(State()), cfg) && found == (id in jobs)
      ensures found ==> id in heap && newer == RunnerStreaming.EventsAfter(heap[id].log.events, after)
                        && state == heap[id].state
    {
      PruneLocked();
      found, newer, state := id in jobs, [], Starting;
      if found {
        assert ObjectOk(id);
        newer := jobs[id].NewerEvents(after);
        state := jobs[id].state;
      }
    }

    /** The locked section of `shutdown`: one by one every unfinished job gives its reservation back. */
    method ShutdownLocked()
      requires Valid() && RunnerInvariants.Inv(State(), cfg)
      modifies this, made.Values
      ensures Valid() && State() == Shut(old(State())) && activeTotal == 0
    {
      ghost var was := State();
      RunnerInvariants.ClockKeepsInv(State(), cfg, clock, false);
      accepting := false;
      for n := 0 to |made|
        invariant made == old(made) && Valid()
        invariant Halfway(was, State(), cfg, n)
      {
        StopOne(n, was);
      }
      Stopped(was);
    }

    lemma Stopped(was: Table)
      requires Valid() && RunnerInvariants.Inv(was, cfg) && Halfway(was, State(), cfg, |made|)
      ensures State() == Shut(was) && activeTotal == 0
    {
      SameKeysSameSize(heap, made);
      SameKeysSameSize(heap, was.heap);
      AllStopped(was, State(), cfg);
    }

    method StopOne(n: nat, ghost was: Table)
      requires Valid() && n in made && Halfway(was, State(), cfg, n)
      modifies this`activeTotal, this`activeByLesson, this`heap, made[n]
      ensures Valid() && Halfway(was, State(), cfg, n + 1)
    {
      ghost var before := State();
      assert ObjectOk(n) && RunnerInvariants.JobOk(before, n) && RunnerInvariants.JobInv(before, n);
      if n in jobs && !jobs[n].state.Finished? {
        var won := BeginTerminationLocked(jobs[n], ShutDown);
      }
      StoppedOneMore(was, before, cfg, n);
    }

    /** `cancel`. */
    method Cancel(id: nat, exited: bool) returns (won: bool)
      requires Valid() && RunnerInvariants.Inv(State(), cfg)
      modifies this, made.Values
      ensures Valid()
      ensures State() == RunnerSystem.TableStep(old(State()), cfg, RunnerSystem.CancelJob(id, exited))
      ensures won ==> id in old(heap) && old(heap)[id].cause.None?
    {
      won := false;
      if id in jobs {
        assert ObjectOk(id);
        assert RunnerInvariants.JobOk(State(), id) && RunnerInvariants.JobInv(State(), id);
        CancelApplies(State(), cfg, id, exited);
        var job := jobs[id];
        if !job.state.Finished? && !job.processReaped && !(job.hasProcess && exited) {
          won := BeginTerminationLocked(job, Cancelled);
        }
      }
    }
  }

  /** `s` is `t` closed, with the jobs below `n` stopped. */
  ghost predicate StoppedBelow(t: Table, s: Table, n: nat) {
    && s.retained == t.retained && s.index == t.index && s.now == t.now && s.leases == t.leases && !s.accepting
    && s.heap.Keys == t.heap.Keys
    && forall id :: id in t.heap ==> s.heap[id] == if id < n then StoppedJob(t, id) else t.heap[id]
  }

  ghost predicate Halfway(t: Table, s: Table, c: Config, n: nat) {
    RunnerInvariants.Inv(s, c) && StoppedBelow(t, s, n)
  }

  /** What the loop of `shutdown` does to one job. */
  function StopStep(s: Table, n: nat): Table
    requires n in s.heap
  {
    if n in s.retained && !s.heap[n].state.Finished? then Begin(s, n, ShutDown) else s
  }

  lemma StoppedOneMore(t: Table, s: Table, c: Config, n: nat)
    requires Halfway(t, s, c, n) && n in s.heap
    ensures Halfway(t, StopStep(s, n), c, n + 1)
  {
    RunnerInvariants.BeginKeepsTable(s, c, n, ShutDown);
    StopStepStops(t, s, n);
  }

  lemma StopStepStops(t: Table, s: Table, n: nat)
    requires StoppedBelow(t, s, n) && n in s.heap
    ensures StoppedBelow(t, StopStep(s, n), n + 1)
  {
  }

  lemma AllStopped(t: Table, s: Table, c: Config)
    requires RunnerInvariants.Inv(t, c) && Halfway(t, s, c, |t.heap|)
    ensures s == Shut(t) && s.activeTotal == 0
  {
    assert s.heap == Shut(t).heap;
    assert RunnerInvariants.Live(s) == {} by { RunnerInvariants.ShutKeepsJobs(t); }
    RunnerInvariants.NothingLiveNothingCounted(s, c);
  }

  lemma PruneIs(t: Table, c: Config, retained: set<nat>, index: map<Key, Entry>)
    requires retained == PrunedJobs(t, c)
    requires index == map k | k in t.index && !Lapsed(t.index[k], t.now, retained) :: t.index[k]
    ensures t.(retained := retained, index := index) == Prune(t, c)
  {
  }

  lemma ReserveIs(t: Table, r: Request, u: Table)
    requires u.heap == t.heap[|t.heap| := NewJob(r, t.now)] && u.retained == t.retained + {|t.heap|}
    requires u.index == t.index[KeyOf(r) := Entry(r.block, r.rev, |t.heap|, None)]
    requires u.activeByLesson == t.activeByLesson[r.lesson := CountIn(t.activeByLesson, r.lesson) + 1]
    requires u.activeTotal == t.activeTotal + 1
    requires u.accepting == t.accepting && u.now == t.now && u.leases == t.leases
    ensures u == Reserve(t, r)
  {
  }

  /** Finishing a job that may finish marks its entry and prunes; otherwise nothing happens. */
  lemma FinishApplies(t: Table, c: Config, id: nat)
    requires id in t.heap && (t.heap[id].state.Terminating? ==> t.heap[id].cause.Some?)
    ensures var j := t.heap[id];
            var done := Finish(j, t.now);
            Apply(t, c, id, done) ==
            if MayFinish(j) then Prune(StartExpiry(t.(heap := t.heap[id := done]), c, id), c) else t
  {
    assert t.heap[id := t.heap[id]] == t.heap;
  }

  lemma CancelApplies(t: Table, c: Config, id: nat, exited: bool)
    requires id in t.heap && RunnerInvariants.JobOk(t, id) && RunnerInvariants.JobInv(t, id)
    ensures var j := t.heap[id];
            StepJob(t, c, id, Cancel(exited)) ==
            if j.state.Finished? || j.processReaped || (j.hasProcess && exited) then t else Begin(t, id, Cancelled)
  {
    assert t.heap[id := t.heap[id]] == t.heap;
    RunnerInvariants.BeginIsApply(t, c, id, Cancelled);
  }

  /** `ids` are the finished retained jobs below `n`; the maps give their finish times and reader counts. */
  ghost predicate DescribesBelow(t: Table, n: nat, ids: seq<nat>, times: Times, readers: map<nat, nat>) {
    && Elements(ids) == times.Keys == readers.Keys
    && (forall id :: id in times <==> id in Terminal(t) && id < n)
    && forall id :: id in times && id in t.heap && t.heap[id].finishedAt.Some? ==>
                      times[id] == t.heap[id].finishedAt.value && readers[id] == t.heap[id].readerCount
  }

  ghost predicate Describes(t: Table, ids: seq<nat>, times: Times, readers: map<nat, nat>) {
    DescribesBelow(t, |t.heap|, ids, times, readers) && Elements(ids) == Terminal(t)
  }

  lemma OneMoreTerminal(t: Table, n: nat, ids: seq<nat>, times: Times, readers: map<nat, nat>)
    requires DescribesBelow(t, n, ids, times, readers) && n in t.retained && IsTerminal(t, n)
    ensures DescribesBelow(t, n + 1, ids + [n], times[n := t.heap[n].finishedAt.value],
                           readers[n := t.heap[n].readerCount])
  {
    assert Elements(ids + [n]) == Elements(ids) + {n};
  }

  /** The sorted-list choice is the table's: exactly the jobs that do not stay. */
  lemma DroppedDoNotStay(t: Table, c: Config, ids: seq<nat>, times: Times, readers: map<nat, nat>, dropped: set<nat>)
    requires Describes(t, ids, times, readers)
    requires var open := Fresh(Elements(ids), times, readers, t.now, c.retention);
             dropped == Elements(ids) - Read(Elements(ids), readers)
                        - Newest(times, open, Room(c.maxTerminal, |Read(Elements(ids), readers)|))
    ensures t.retained - dropped == PrunedJobs(t, c)
  {
    assert Read(Elements(ids), readers) == Protected(t);
    assert Fresh(Elements(ids), times, readers, t.now, c.retention) == Unexpired(t, c);
    NewestSameTimes(times, FinishTimes(t), Unexpired(t, c), Slots(t, c));
    assert dropped == Terminal(t) - Protected(t) - Kept(t, c);
    forall id ensures id in t.retained - dropped <==> id in PrunedJobs(t, c) {
    }
  }

  lemma NewestSameTimes(a: Times, b: Times, among: set<nat>, slots: nat)
    requires among <= a.Keys && among <= b.Keys && forall x :: x in among ==> a[x] == b[x]
    ensures Newest(a, among, slots) == Newest(b, among, slots)
  {
    forall x | x in among ensures Newer(a, among, x) == Newer(b, among, x) {
    }
  }
}

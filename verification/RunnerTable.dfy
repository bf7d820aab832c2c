/** `RunnerService`'s tables: every job ever admitted, which of them are retained, the idempotency index,
    the capacity counters and the reader leases, with the effect of each locked section on them. */
module RunnerTable {
  import opened Options
  import opened RunnerJob
  import opened RunnerRank

  datatype Config = Config(retention: int, maxTerminal: nat, globalLimit: nat, perLessonLimit: nat)

  datatype Key = Key(lesson: nat, key: nat)

  /** What the index remembers of an admission; it expires some time after the job has finished. */
  datatype Entry = Entry(block: nat, rev: nat, jobId: nat, expires: Option<int>)

  datatype Lease = Lease(job: nat, active: bool)

  /** `heap` holds every job object ever made, numbered as made; `retained` is the domain of `_jobs`. */
  datatype Table = Table(
    heap: map<nat, Job>, retained: set<nat>, index: map<Key, Entry>,
    activeByLesson: map<nat, nat>, activeTotal: int, accepting: bool, now: int, leases: map<nat, Lease>)

  function EmptyTable(now: int): Table {
    Table(map[], {}, map[], map[], 0, true, now, map[])
  }

  function KeyOf(r: Request): Key {
    Key(r.lesson, r.key)
  }

  // ---- pruning ----

  predicate IsTerminal(t: Table, id: nat) {
    id in t.heap && t.heap[id].state.Finished? && t.heap[id].finishedAt.Some?
  }

  function FinishTimes(t: Table): Times {
    map id | id in t.heap && IsTerminal(t, id) :: t.heap[id].finishedAt.value
  }

  function Terminal(t: Table): set<nat> {
    set id | id in t.retained && IsTerminal(t, id)
  }

  function Protected(t: Table): set<nat> {
    set id | id in Terminal(t) && t.heap[id].readerCount > 0
  }

  predicate IsExpired(t: Table, c: Config, id: nat)
    requires IsTerminal(t, id)
  {
    t.heap[id].readerCount == 0 && t.now - t.heap[id].finishedAt.value >= c.retention
  }

  function Unexpired(t: Table, c: Config): set<nat> {
    set id | id in Terminal(t) && t.heap[id].readerCount == 0 && !IsExpired(t, c, id)
  }

  function Slots(t: Table, c: Config): nat {
    if |Protected(t)| <= c.maxTerminal then c.maxTerminal - |Protected(t)| else 0
  }

  function Kept(t: Table, c: Config): set<nat> {
    Newest(FinishTimes(t), Unexpired(t, c), Slots(t, c))
  }

  /** A job stays if it is unfinished, being read, or among the newest unexpired ones that fit. */
  predicate Stays(t: Table, c: Config, id: nat) {
    !IsTerminal(t, id) || t.heap[id].readerCount > 0 || id in Kept(t, c)
  }

  function PrunedJobs(t: Table, c: Config): set<nat> {
    set id | id in t.retained && Stays(t, c, id)
  }

  predicate Lapsed(e: Entry, now: int, retained: set<nat>) {
    e.expires.Some? && now >= e.expires.value && e.jobId !in retained
  }

  /** `_prune_locked`. */
  function Prune(t: Table, c: Config): Table {
    var retained := PrunedJobs(t, c);
    t.(retained := retained,
    index := map k | k in t.index && !Lapsed(t.index[k], t.now, retained) :: t.index[k])
  }

  // ---- capacity and the index ----

  function CountIn(counts: map<nat, nat>, lesson: nat): nat {
    if lesson in counts then counts[lesson] else 0
  }

  function ActiveIn(t: Table, lesson: nat): nat {
    CountIn(t.activeByLesson, lesson)
  }

  /** A lesson's count goes down by one, and out at zero. */
  function OneLess(counts: map<nat, nat>, lesson: nat): map<nat, nat> {
    if CountIn(counts, lesson) > 1 then counts[lesson := counts[lesson] - 1] else counts - {lesson}
  }

  /** `_release_locked`. */
  function Release(t: Table, lesson: nat): Table {
    t.(activeTotal := t.activeTotal - 1, activeByLesson := OneLess(t.activeByLesson, lesson))
  }

  /** The entry of a job that has just finished starts to age. */
  function StartExpiry(t: Table, c: Config, id: nat): Table
    requires IsTerminal(t, id)
  {
    var k := KeyOf(t.heap[id].request);
    if k in t.index && t.index[k].jobId == id then
      t.(index := t.index[k := t.index[k].(expires := Some(t.heap[id].finishedAt.value + c.retention))])
    else t
  }

  /** What replacing job `id` by its next form does to the tables: the first cause releases the
      reservation, and finishing starts the entry's expiry and prunes. */
  function Apply(t: Table, c: Config, id: nat, j: Job): Table
    requires id in t.heap
  {
    var was := t.heap[id];
    var stored := t.(heap := t.heap[id := j]);
    var released := if was.cause.None? && j.cause.Some? then Release(stored, j.request.lesson) else stored;
    if !IsTerminal(t, id) && IsTerminal(released, id) then Prune(StartExpiry(released, c, id), c) else released
  }

  function StepJob(t: Table, c: Config, id: nat, a: Action): Table
    requires id in t.heap && CanStep(t.heap[id], a)
  {
    Apply(t, c, id, Step(t.heap[id], a, t.now))
  }

  /** `_replay_locked`. */
  datatype Replay = Absent | Conflict | Missing | Replayed(jobId: nat)

  function ReplayLocked(t: Table, r: Request): Replay {
    if KeyOf(r) !in t.index then Absent
    else
      var e := t.index[KeyOf(r)];
      if e.block != r.block || e.rev != r.rev then Conflict
      else if e.jobId !in t.retained then Missing
      else Replayed(e.jobId)
  }

  predicate LessonFull(t: Table, c: Config, lesson: nat) {
    ActiveIn(t, lesson) >= c.perLessonLimit
  }

  predicate GlobalFull(t: Table, c: Config) {
    t.activeTotal >= c.globalLimit
  }

  /** The end of `admit`: a new job takes the next number, one reservation and its index entry. */
  function Reserve(t: Table, r: Request): Table {
    var id := |t.heap|;
    t.(heap := t.heap[id := NewJob(r, t.now)], retained := t.retained + {id},
    index := t.index[KeyOf(r) := Entry(r.block, r.rev, id, None)],
    activeByLesson := t.activeByLesson[r.lesson := ActiveIn(t, r.lesson) + 1], activeTotal := t.activeTotal + 1)
  }

  /** `_begin_termination_locked`: only a job without a cause is affected. */
  function Begin(t: Table, id: nat, cause: Cause): Table
    requires id in t.heap
  {
    if t.heap[id].cause.Some? then t
    else Release(t.(heap := t.heap[id := BeginTermination(t.heap[id], cause)]), t.heap[id].request.lesson)
  }

  /** A retained job that is not finished has its termination begun, unless it had been. */
  function StoppedJob(t: Table, id: nat): Job
    requires id in t.heap
  {
    var j := t.heap[id];
    if id in t.retained && !j.state.Finished? then BeginTermination(j, ShutDown) else j
  }

  /** What the locked section of `shutdown` comes to: every unfinished job is stopped, and stopping them
      one by one has given back every reservation. */
  function Shut(t: Table): Table {
    t.(accepting := false, activeTotal := 0, activeByLesson := map[],
    heap := map id | id in t.heap :: StoppedJob(t, id))
  }

  // ---- reader leases ----

  function BeingRead(t: Table): set<nat> {
    set id | id in t.retained && id in t.heap && t.heap[id].readerCount > 0
  }

  predicate MayAttach(t: Table, c: Config, id: nat) {
    && id in t.retained && id in t.heap
    && t.heap[id].readerCount < 2
    && (t.heap[id].readerCount == 0 ==> |BeingRead(t)| < c.maxTerminal)
  }

  function SetReaders(t: Table, id: nat, n: nat): Table
    requires id in t.heap
  {
    t.(heap := t.heap[id := t.heap[id].(readerCount := n)])
  }

  /** `attach_reader`, once the table has been pruned. */
  function Attach(t: Table, c: Config, l: nat, id: nat): Table
    requires MayAttach(t, c, id)
  {
    SetReaders(t, id, t.heap[id].readerCount + 1).(leases := t.leases[l := Lease(id, true)])
  }

  /** `detach_reader`. */
  function Detach(t: Table, c: Config, l: nat): Table
    requires l in t.leases && t.leases[l].job in t.heap
  {
    if !t.leases[l].active then t
    else
      var id := t.leases[l].job;
      var n := t.heap[id].readerCount;
      var s := if n > 0 then SetReaders(t, id, n - 1) else t;
      Prune(s.(leases := t.leases[l := Lease(id, false)]), c)
  }
}

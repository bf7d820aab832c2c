/** One PTY, one pump, and any number of sockets attaching and leaving: what each socket is sent.
    Every await of `_run` and of the attach section of `_serve_ws` is a point where others may step. */
module TerminalDelivery {
  import opened Options
  import opened TerminalRing

  /** The pump between its awaits; `target` is the socket it captured when it read `data`. */
  datatype Pump = Idle | Waiting(data: Bytes, target: Socket) | Sending(data: Bytes, target: Socket) | Dead

  datatype Phase = Arrived | Booting | Greeting | WantSend | Replaying(snap: Bytes) | Serving | Gone

  /** `sent` is all the output this socket was sent; `start` is where in the history that began. */
  datatype Client = Client(phase: Phase, start: Option<nat>, sent: Bytes)

  datatype Holder = PumpHolds | ClientHolds(w: Socket)

  datatype State = State(
    history: Bytes, chunks: seq<Bytes>, ws: Option<Socket>, pump: Pump, ended: bool,
    sendLock: Option<Holder>, attachLock: Option<Socket>, clients: map<Socket, Client>)

  datatype Action =
    | Banner(data: Bytes)
    | PtyRead(data: Bytes)
    | PumpAcquires
    | PumpSent
    | PumpFailed(k: nat)
    | PumpExits
    | CloseEnds
    | Arrive(w: Socket)
    | TakeAttachLock(w: Socket)
    | OldClosed(w: Socket)
    | Greeted(w: Socket)
    | HandshakeFails(w: Socket)
    | AcquireSend(w: Socket)
    | ReplayDone(w: Socket)
    | ReplayFails(w: Socket, k: nat)
    | Leave(w: Socket)

  const READ_MAX: nat := 65536

  function DetachWs(ws: Option<Socket>, w: Socket): Option<Socket> {
    if ws == Some(w) then None else ws
  }

  function Remembering(s: State, data: Bytes): State {
    s.(history := s.history + data, chunks := Trim(s.chunks + [data]))
  }

  function SetPhase(s: State, w: Socket, p: Phase): State
    requires w in s.clients
  {
    s.(clients := s.clients[w := s.clients[w].(phase := p)])
  }

  /** The handler of `w` ends inside the attach section: it detaches and lets the lock go. */
  function DropOut(s: State, w: Socket): State
    requires w in s.clients
  {
    SetPhase(s, w, Gone).(ws := DetachWs(s.ws, w), attachLock := None)
  }

  function SendTo(s: State, w: Socket, data: Bytes): State
    requires w in s.clients
  {
    s.(clients := s.clients[w := s.clients[w].(sent := s.clients[w].sent + data)])
  }

  predicate In(s: State, w: Socket, p: Phase) {
    w in s.clients && s.clients[w].phase == p
  }

  predicate CanStep(s: State, a: Action) {
    match a
    case Banner(data) => s.clients == map[] && s.pump.Idle?
    case PtyRead(data) => s.pump.Idle? && 0 < |data| <= READ_MAX
    case PumpAcquires => s.pump.Waiting? && s.sendLock.None?
    case PumpSent => s.pump.Sending? && s.pump.target in s.clients
    case PumpFailed(k) => s.pump.Sending? && s.pump.target in s.clients && k <= |s.pump.data|
    case PumpExits => s.pump.Idle?
    case CloseEnds => true
    case Arrive(w) => w !in s.clients
    case TakeAttachLock(w) => In(s, w, Arrived) && s.attachLock.None?
    case OldClosed(w) => In(s, w, Booting)
    case Greeted(w) => In(s, w, Greeting)
    case HandshakeFails(w) => In(s, w, Booting) || In(s, w, Greeting)
    case AcquireSend(w) => In(s, w, WantSend) && s.sendLock.None?
    case ReplayDone(w) => w in s.clients && s.clients[w].phase.Replaying?
    case ReplayFails(w, k) => w in s.clients && s.clients[w].phase.Replaying? && k <= |s.clients[w].phase.snap|
    case Leave(w) => In(s, w, Serving)
  }

  function PumpNext(s: State): Pump {
    if s.ended then Dead else Idle
  }

  function Step(s: State, a: Action): State
    requires CanStep(s, a)
  {
    match a
    case Banner(data) => Remembering(s, data)
    case PtyRead(data) =>                        // remember and capture `self.ws` without an await between
      Remembering(s, data).(pump := if s.ws.Some? then Waiting(data, s.ws.value) else Idle)
    case PumpAcquires =>
      if s.ws == Some(s.pump.target) then
        s.(sendLock := Some(PumpHolds), pump := Sending(s.pump.data, s.pump.target))
      else s.(pump := Idle)
    case PumpSent =>
      SendTo(s, s.pump.target, s.pump.data).(sendLock := None, pump := PumpNext(s))
    case PumpFailed(k) =>
      SendTo(s, s.pump.target, s.pump.data[..k]).
      (sendLock := None, pump := PumpNext(s), ws := DetachWs(s.ws, s.pump.target))
    case PumpExits => s.(pump := Dead)
    case CloseEnds =>                            // the pump is cancelled where it waits; a send in flight resolves
      s.(ws := None, ended := true, pump := if s.pump.Sending? then s.pump else Dead)
    case Arrive(w) => s.(clients := s.clients[w := Client(Arrived, None, [])])
    case TakeAttachLock(w) =>
      SetPhase(s, w, if s.ws.Some? then Booting else Greeting).(ws := None, attachLock := Some(w))
    case OldClosed(w) => SetPhase(s, w, Greeting)
    case Greeted(w) => SetPhase(s, w, WantSend)
    case HandshakeFails(w) => DropOut(s, w)
    case AcquireSend(w) =>                       // snapshot and attach without an await between
      var snap := Flatten(s.chunks);
      var at := if |snap| <= |s.history| then |s.history| - |snap| else 0;
      if snap == [] then
        s.(ws := Some(w), attachLock := None, clients := s.clients[w := Client(Serving, Some(at), [])])
      else
        s.(ws := Some(w), sendLock := Some(ClientHolds(w)),
        clients := s.clients[w := Client(Replaying(snap), Some(at), [])])
    case ReplayDone(w) =>
      SetPhase(SendTo(s, w, s.clients[w].phase.snap), w, Serving).(sendLock := None, attachLock := None)
    case ReplayFails(w, k) =>
      DropOut(SendTo(s, w, s.clients[w].phase.snap[..k]), w).(sendLock := None)
    case Leave(w) => SetPhase(s, w, Gone).(ws := DetachWs(s.ws, w))
  }

  const FRESH := State([], [], None, Idle, false, None, None, map[])

  ghost predicate IsRun(run: seq<State>) {
    && run != [] && run[0] == FRESH
    && forall i {:trigger StepsAt(run, i)} :: StepsAt(run, i)
  }

  ghost predicate StepsAt(run: seq<State>, i: int) {
    0 <= i < |run| - 1 ==> Follows(run[i], run[i + 1])
  }

  ghost predicate Follows(s: State, t: State) {
    exists a :: CanStep(s, a) && t == Step(s, a)
  }

  // ---- the invariant ----

  /** How much of the history's end the pump still holds for `w`. */
  function Pending(s: State, w: Socket): nat {
    if (s.pump.Waiting? || s.pump.Sending?) && s.pump.target == w then |s.pump.data| else 0
  }

  /** `part` is the stretch of the history that starts at `at`. */
  ghost predicate SliceAt(history: Bytes, at: nat, part: Bytes) {
    at + |part| <= |history| && part == history[at..at + |part|]
  }

  predicate HoldsAttach(p: Phase) {
    p.Booting? || p.Greeting? || p.WantSend? || p.Replaying?
  }

  ghost predicate ClientOk(s: State, w: Socket)
    requires w in s.clients
  {
    var c := s.clients[w];
    && (c.start.None? ==> c.sent == [])
    && (c.start.Some? ==> SliceAt(s.history, c.start.value, c.sent))
    && ((c.phase.Arrived? || c.phase.Booting? || c.phase.Greeting? || c.phase.WantSend?) ==> c.start.None?)
    && (c.phase.Replaying? <==> s.sendLock == Some(ClientHolds(w)))
    && (HoldsAttach(c.phase) <==> s.attachLock == Some(w))
    && (c.phase.Replaying? ==> c.start.Some? && c.sent == [] && SliceAt(s.history, c.start.value, c.phase.snap))
    && (s.ws == Some(w) ==>
          && c.start.Some?
          && ((c.phase.Replaying? && c.start.value + |c.phase.snap| + Pending(s, w) == |s.history|)
              || (c.phase.Serving? && c.start.value + |c.sent| + Pending(s, w) == |s.history|)))
  }

  ghost predicate PumpOk(s: State) {
    && (s.pump.Sending? <==> s.sendLock == Some(PumpHolds))
    && ((s.pump.Waiting? || s.pump.Sending?) ==>
          && s.pump.target in s.clients
          && s.clients[s.pump.target].start.Some?
          && |s.pump.data| <= |s.history|
          && s.pump.data == s.history[|s.history| - |s.pump.data|..])
    && (s.pump.Sending? ==>
          var c := s.clients[s.pump.target];
          !c.phase.Replaying? && c.start.value + |c.sent| + |s.pump.data| == |s.history|)
  }

  ghost predicate LocksOk(s: State) {
    && (s.ws.Some? ==> s.ws.value in s.clients)
    && (s.attachLock.Some? ==>
          && s.attachLock.value in s.clients
          && (s.clients[s.attachLock.value].phase.Replaying? || s.ws.None?))
    && (s.sendLock.Some? && s.sendLock.value.ClientHolds? ==> s.sendLock.value.w in s.clients)
  }

  ghost predicate Inv(s: State) {
    && IsSuffix(Flatten(s.chunks), s.history)
    && (|Flatten(s.chunks)| <= RING_BYTES || |s.chunks| == 1)
    && LocksOk(s)
    && PumpOk(s)
    && forall w :: w in s.clients ==> ClientOk(s, w)
  }

  lemma SliceGrows(history: Bytes, at: nat, part: Bytes, data: Bytes)
    requires SliceAt(history, at, part)
    ensures SliceAt(history + data, at, part)
  {
    assert (history + data)[at..at + |part|] == history[at..at + |part|];
  }

  /** A slice continued by the next bytes of the history is a slice. */
  lemma SliceExtends(history: Bytes, at: nat, part: Bytes, data: Bytes, k: nat)
    requires SliceAt(history, at, part)
    requires |data| <= |history| && data == history[|history| - |data|..]
    requires at + |part| + |data| == |history| && k <= |data|
    ensures SliceAt(history, at, part + data[..k])
  {
    var m := at + |part|;
    assert data[..k] == history[m..m + k];
    assert history[at..m + k] == history[at..m] + history[m..m + k];
  }

  lemma RememberingKeeps(s: State, data: Bytes)
    requires Inv(s)
    ensures var t := Remembering(s, data);
            && IsSuffix(Flatten(t.chunks), t.history)
            && (|Flatten(t.chunks)| <= RING_BYTES || |t.chunks| == 1)
            && (|data| <= RING_BYTES ==> |Flatten(t.chunks)| <= RING_BYTES)
  {
    RememberFacts(s.chunks, s.history, data);
  }

  /** A PTY read: the captured socket owes the chunk, everybody else is untouched. */
  lemma ReadKeepsInv(s: State, data: Bytes)
    requires Inv(s) && CanStep(s, PtyRead(data))
    ensures Inv(Step(s, PtyRead(data)))
  {
    var t := Step(s, PtyRead(data));
    RememberingKeeps(s, data);
    assert t.history[|t.history| - |data|..] == data;
    forall w | w in t.clients ensures ClientOk(t, w) {
      assert ClientOk(s, w);
      var c := s.clients[w];
      if c.start.Some? { SliceGrows(s.history, c.start.value, c.sent, data); }
      if c.phase.Replaying? { SliceGrows(s.history, c.start.value, c.phase.snap, data); }
    }
    assert s.ws.Some? ==> ClientOk(s, s.ws.value);
  }

  lemma AcquireKeepsInv(s: State)
    requires Inv(s) && CanStep(s, PumpAcquires)
    ensures Inv(Step(s, PumpAcquires))
  {
    var t := Step(s, PumpAcquires);
    assert ClientOk(s, s.pump.target);
    forall w | w in t.clients ensures ClientOk(t, w) {
      assert ClientOk(s, w);
    }
  }

  /** The pump's send ends, in full or after `k` bytes: the target's output stays one slice. */
  lemma SendKeepsInv(s: State, a: Action, k: nat)
    requires Inv(s) && CanStep(s, a) && (a == PumpSent || a == PumpFailed(k))
    requires k <= |s.pump.data| && (a == PumpSent ==> k == |s.pump.data|)
    ensures Inv(Step(s, a))
  {
    var t := Step(s, a);
    var target, data := s.pump.target, s.pump.data;
    assert data[..|data|] == data;
    var d := s.clients[target];
    assert ClientOk(s, target);
    SliceExtends(s.history, d.start.value, d.sent, data, k);
    forall w | w in t.clients ensures ClientOk(t, w) {
      assert ClientOk(s, w);
    }
  }

  lemma CloseKeepsInv(s: State, a: Action)
    requires Inv(s) && CanStep(s, a) && (a == PumpExits || a == CloseEnds)
    ensures Inv(Step(s, a))
  {
    var t := Step(s, a);
    forall w | w in t.clients ensures ClientOk(t, w) {
      assert ClientOk(s, w);
    }
  }

  /** A handler on its way to attaching. */
  lemma ApproachKeepsInv(s: State, a: Action, v: Socket)
    requires Inv(s) && CanStep(s, a)
    requires a == Arrive(v) || a == OldClosed(v) || a == Greeted(v)
    ensures Inv(Step(s, a))
  {
    var t := Step(s, a);
    assert v in s.clients ==> ClientOk(s, v);
    forall w | w in t.clients ensures ClientOk(t, w) {
      if w in s.clients { assert ClientOk(s, w); }
    }
  }

  /** Taking the attach lock lets the attached socket go. */
  lemma BootKeepsInv(s: State, v: Socket)
    requires Inv(s) && CanStep(s, TakeAttachLock(v))
    ensures Inv(Step(s, TakeAttachLock(v)))
  {
    var t := Step(s, TakeAttachLock(v));
    assert v in s.clients ==> ClientOk(s, v);
    forall w | w in t.clients ensures ClientOk(t, w) {
      if w in s.clients { assert ClientOk(s, w); }
    }
  }

  /** A handler that ends, before or after it attached. */
  lemma DepartureKeepsInv(s: State, a: Action, v: Socket)
    requires Inv(s) && CanStep(s, a)
    requires a == HandshakeFails(v) || a == Leave(v)
    ensures Inv(Step(s, a))
  {
    var t := Step(s, a);
    forall w | w in t.clients ensures ClientOk(t, w) {
      DepartureKeepsClient(s, a, v, w);
    }
  }

  lemma DepartureKeepsClient(s: State, a: Action, v: Socket, w: Socket)
    requires CanStep(s, a) && v in s.clients && w in s.clients && ClientOk(s, v) && ClientOk(s, w)
    requires a == HandshakeFails(v) || a == Leave(v)
    ensures ClientOk(Step(s, a), w)
  {
  }

  /** Snapshot and attach in one stretch: the snapshot is exactly the end of the history. */
  lemma AttachKeepsInv(s: State, v: Socket)
    requires Inv(s) && CanStep(s, AcquireSend(v))
    ensures Inv(Step(s, AcquireSend(v)))
  {
    var t := Step(s, AcquireSend(v));
    assert ClientOk(s, v);
    forall w | w in t.clients ensures ClientOk(t, w) {
      AttachKeepsClient(s, v, w);
    }
  }

  lemma AttachKeepsClient(s: State, v: Socket, w: Socket)
    requires Inv(s) && CanStep(s, AcquireSend(v)) && w in s.clients && ClientOk(s, v) && ClientOk(s, w)
    ensures ClientOk(Step(s, AcquireSend(v)), w)
  {
    var snap := Flatten(s.chunks);
    assert s.history[|s.history| - |snap|..|s.history|] == snap;
  }

  lemma ReplayKeepsInv(s: State, a: Action, v: Socket, k: nat)
    requires Inv(s) && CanStep(s, a) && (a == ReplayDone(v) || a == ReplayFails(v, k))
    requires k <= |s.clients[v].phase.snap| && (a == ReplayDone(v) ==> k == |s.clients[v].phase.snap|)
    ensures Inv(Step(s, a))
  {
    var t := Step(s, a);
    assert ClientOk(s, v);
    forall w | w in t.clients ensures ClientOk(t, w) {
      ReplayKeepsClient(s, a, v, k, w);
    }
  }

  lemma ReplayKeepsClient(s: State, a: Action, v: Socket, k: nat, w: Socket)
    requires CanStep(s, a) && (a == ReplayDone(v) || a == ReplayFails(v, k))
    requires k <= |s.clients[v].phase.snap| && (a == ReplayDone(v) ==> k == |s.clients[v].phase.snap|)
    requires w in s.clients && ClientOk(s, v) && ClientOk(s, w)
    ensures ClientOk(Step(s, a), w)
  {
    if w == v {
      var c := s.clients[v];
      assert c.phase.snap[..|c.phase.snap|] == c.phase.snap;
      assert c.sent + c.phase.snap[..k] == c.phase.snap[..k];
      assert c.phase.snap[..k] == s.history[c.start.value..c.start.value + k];
    }
  }

  lemma StepKeepsInv(s: State, a: Action)
    requires Inv(s) && CanStep(s, a)
    ensures Inv(Step(s, a))
  {
    match a
    case Banner(data) => RememberingKeeps(s, data);
    case PtyRead(data) => ReadKeepsInv(s, data);
    case PumpAcquires => AcquireKeepsInv(s);
    case PumpSent => SendKeepsInv(s, a, |s.pump.data|);
    case PumpFailed(k) => SendKeepsInv(s, a, k);
    case PumpExits => CloseKeepsInv(s, a);
    case CloseEnds => CloseKeepsInv(s, a);
    case AcquireSend(w) => AttachKeepsInv(s, w);
    case ReplayDone(w) => ReplayKeepsInv(s, a, w, |s.clients[w].phase.snap|);
    case ReplayFails(w, k) => ReplayKeepsInv(s, a, w, k);
    case Arrive(w) => ApproachKeepsInv(s, a, w);
    case TakeAttachLock(w) => BootKeepsInv(s, w);
    case OldClosed(w) => ApproachKeepsInv(s, a, w);
    case Greeted(w) => ApproachKeepsInv(s, a, w);
    case HandshakeFails(w) => DepartureKeepsInv(s, a, w);
    case Leave(w) => DepartureKeepsInv(s, a, w);
  }

  lemma {:induction false} RunKeepsInv(run: seq<State>, k: nat)
    requires IsRun(run) && k < |run|
    ensures Inv(run[k])
  {
    if k > 0 {
      RunKeepsInv(run, k - 1);
      assert StepsAt(run, k - 1);
      FollowKeeps(run[k - 1], run[k]);
    }
  }

  lemma FollowKeeps(s: State, t: State)
    requires Inv(s) && Follows(s, t)
    ensures Inv(t)
  {
    var a :| CanStep(s, a) && t == Step(s, a);
    StepKeepsInv(s, a);
  }

  // ---- the theorems ----

  /** In every reachable state: each socket was sent one contiguous slice, with no gap and no repetition,
      and the attached one has everything to the end once neither the pump nor the replay owes it a send. */
  lemma ContiguousDelivery(run: seq<State>, w: Socket)
    requires IsRun(run) && w in run[|run| - 1].clients
    ensures var s := run[|run| - 1];
            var c := s.clients[w];
            && (c.start.None? ==> c.sent == [])
            && (c.start.Some? ==> SliceAt(s.history, c.start.value, c.sent))
            && (s.ws == Some(w) && Pending(s, w) == 0 && !c.phase.Replaying? ==>
                  c.start.Some? && c.sent == s.history[c.start.value..])
  {
    RunKeepsInv(run, |run| - 1);
    var s := run[|run| - 1];
    assert ClientOk(s, w);
    var c := s.clients[w];
    if s.ws == Some(w) && Pending(s, w) == 0 && !c.phase.Replaying? {
      assert s.history[c.start.value..|s.history|] == s.history[c.start.value..];
    }
  }

  /** The slice begins at the oldest byte the ring still held when the socket attached, nobody else was
      attached then, and the ring is exactly what comes first. */
  lemma AttachStartsAtRetained(run: seq<State>, w: Socket)
    requires IsRun(run) && CanStep(run[|run| - 1], AcquireSend(w))
    ensures var s := run[|run| - 1];
            var t := Step(s, AcquireSend(w));
            && s.ws.None? && t.ws == Some(w)
            && t.clients[w].start.Some? && t.clients[w].start.value + |Flatten(s.chunks)| == |s.history|
            && Flatten(s.chunks) == s.history[t.clients[w].start.value..]
            && (Flatten(s.chunks) != [] ==> t.clients[w].phase == Replaying(Flatten(s.chunks)))
  {
    RunKeepsInv(run, |run| - 1);
    assert ClientOk(run[|run| - 1], w);
  }

  /** The two kinds of send on a socket never overlap, and two handlers never attach at once. */
  lemma SendsAreExclusive(run: seq<State>, v: Socket, w: Socket)
    requires IsRun(run)
    requires v in run[|run| - 1].clients && w in run[|run| - 1].clients
    ensures var s := run[|run| - 1];
            && (s.clients[v].phase.Replaying? ==> !s.pump.Sending?)
            && (HoldsAttach(s.clients[v].phase) && HoldsAttach(s.clients[w].phase) ==> v == w)
  {
    RunKeepsInv(run, |run| - 1);
    var s := run[|run| - 1];
    assert ClientOk(s, v) && ClientOk(s, w);
  }

  /** The ring is always the end of the history; a PTY read leaves it within its bound. */
  lemma RingIsBoundedSuffix(run: seq<State>, data: Bytes)
    requires IsRun(run)
    ensures IsSuffix(Flatten(run[|run| - 1].chunks), run[|run| - 1].history)
    ensures CanStep(run[|run| - 1], PtyRead(data)) ==>
              |Flatten(Step(run[|run| - 1], PtyRead(data)).chunks)| <= RING_BYTES
  {
    RunKeepsInv(run, |run| - 1);
    RememberingKeeps(run[|run| - 1], data);
  }

  ghost predicate Extends(a: Bytes, b: Bytes) {
    |a| <= |b| && b[..|a|] == a
  }

  /** What a step may do to a socket: nothing sent is taken back, a start once fixed stays, and only the
      holder of the send lock is being sent more. */
  ghost predicate OnlyAppends(s: State, t: State, w: Socket)
    requires w in s.clients
  {
    && w in t.clients && Extends(s.clients[w].sent, t.clients[w].sent)
    && (s.clients[w].start.Some? ==> t.clients[w].start == s.clients[w].start)
    && (s.clients[w].phase.Gone? ==> t.clients[w].phase.Gone?)
    && (t.clients[w].sent != s.clients[w].sent ==>
          || s.sendLock == Some(ClientHolds(w))
          || (s.sendLock == Some(PumpHolds) && s.pump.Sending? && s.pump.target == w))
  }

  lemma SendOnlyAppends(s: State, a: Action, w: Socket)
    requires PumpOk(s) && CanStep(s, a) && w in s.clients && (a.PumpSent? || a.PumpFailed?)
    ensures OnlyAppends(s, Step(s, a), w)
  {
  }

  lemma ReplayOnlyAppends(s: State, a: Action, w: Socket)
    requires w in s.clients && ClientOk(s, w) && CanStep(s, a) && (a.ReplayDone? || a.ReplayFails?)
    requires ClientOk(s, a.w)
    ensures OnlyAppends(s, Step(s, a), w)
  {
  }

  lemma OthersSendNothing(s: State, a: Action, w: Socket)
    requires w in s.clients && ClientOk(s, w) && CanStep(s, a)
    requires !(a.PumpSent? || a.PumpFailed? || a.ReplayDone? || a.ReplayFails?)
    ensures OnlyAppends(s, Step(s, a), w) && Extends(s.history, Step(s, a).history)
  {
  }

  lemma StepOnlyAppends(s: State, a: Action, w: Socket)
    requires Inv(s) && CanStep(s, a) && w in s.clients
    ensures OnlyAppends(s, Step(s, a), w) && Extends(s.history, Step(s, a).history)
  {
    assert ClientOk(s, w);
    match a
    case PumpSent => SendOnlyAppends(s, a, w);
    case PumpFailed(_) => SendOnlyAppends(s, a, w);
    case ReplayDone(v) => ReplayOnlyAppends(s, a, w);
    case ReplayFails(v, _) => ReplayOnlyAppends(s, a, w);
    case _ => OthersSendNothing(s, a, w);
  }

  // ---- what undisturbed stretches come to ----

  /** With its attach section free a page that arrives can go through it: whoever was attached is booted, the
      page is sent what the ring holds, and it is attached with both locks free again. */
  lemma PageGetsIn(s: State, w: Socket)
    requires Inv(s) && w !in s.clients && s.attachLock.None? && s.sendLock.None?
    ensures var came := Step(s, Arrive(w));
            CanStep(came, TakeAttachLock(w)) && PassesSection(Step(came, TakeAttachLock(w)), s, w)
  {
    var locked := Step(Step(s, Arrive(w)), TakeAttachLock(w));
    assert In(locked, w, if s.ws.Some? then Booting else Greeting);
    SectionIsPassed(locked, s, w);
  }

  lemma SectionIsPassed(locked: State, s: State, w: Socket)
    requires In(locked, w, if s.ws.Some? then Booting else Greeting) && locked.clients[w].sent == []
    requires locked.ws == None && locked.attachLock == Some(w) && locked.sendLock == None
    requires locked.chunks == s.chunks && locked.history == s.history && IsSuffix(Flatten(s.chunks), s.history)
    ensures PassesSection(locked, s, w)
  {
    var closed := if s.ws.Some? then Step(locked, OldClosed(w)) else locked;
    assert In(closed, w, Greeting);
    SnapshotAttaches(Step(closed, Greeted(w)), s, w);
  }

  lemma SnapshotAttaches(t: State, s: State, w: Socket)
    requires In(t, w, WantSend) && t.clients[w].sent == [] && t.sendLock == None
    requires t.chunks == s.chunks && t.history == s.history && IsSuffix(Flatten(s.chunks), s.history)
    ensures CanStep(t, AcquireSend(w)) && Attaches(Step(t, AcquireSend(w)), s, w)
  {
  }

  /** From the lock on: the old socket closes if there was one, the page is greeted, snapshot and attach, replay. */
  ghost predicate PassesSection(locked: State, s: State, w: Socket) {
    && locked.ws == None && locked.attachLock == Some(w)
    && (s.ws.Some? ==> CanStep(locked, OldClosed(w)))
    && var closed := if s.ws.Some? then Step(locked, OldClosed(w)) else locked;
    && CanStep(closed, Greeted(w)) && CanStep(closed, HandshakeFails(w))
    && CanStep(Step(closed, Greeted(w)), AcquireSend(w))
    && Attaches(Step(Step(closed, Greeted(w)), AcquireSend(w)), s, w)
  }

  ghost predicate Attaches(t: State, s: State, w: Socket) {
    var snap := Flatten(s.chunks);
    && t.ws == Some(w) && w in t.clients
    && (snap != [] ==> CanStep(t, ReplayDone(w)))
    && var u := if snap != [] then Step(t, ReplayDone(w)) else t;
    && u.ws == Some(w) && u.attachLock == None && u.sendLock == None
    && u.clients[w].phase.Serving? && u.clients[w].sent == snap
    && u.clients[w].start.Some? && u.clients[w].start.value + |snap| == |s.history|
  }

  /** Output read while a page is served, and nobody in the way of the pump, reaches it, and the pump reads on. */
  lemma OutputArrives(s: State, w: Socket, data: Bytes)
    requires Inv(s) && s.ws == Some(w) && s.clients[w].phase.Serving? && s.pump.Idle? && s.sendLock.None?
    requires 0 < |data| <= 65536
    ensures CanStep(s, PtyRead(data))
    ensures var t := Step(s, PtyRead(data));
            && CanStep(t, PumpAcquires) && CanStep(Step(t, PumpAcquires), PumpSent)
            && var u := Step(Step(t, PumpAcquires), PumpSent);
            && u.clients[w].sent == s.clients[w].sent + data && u.ws == Some(w)
            && u.pump == (if s.ended then Dead else Idle) && u.sendLock == None
            && u.history == s.history + data
  {
    assert ClientOk(s, w);
  }

  /** Output nobody is attached for is only remembered; output for a page that left is dropped by the pump. */
  lemma OutputIsKept(s: State, data: Bytes)
    requires Inv(s)
    ensures CanStep(s, PtyRead(data)) && s.ws.None? ==>
              Step(s, PtyRead(data)) == s.(history := s.history + data, chunks := Trim(s.chunks + [data]))
    ensures CanStep(s, Banner(data)) ==> Step(s, Banner(data)).history == s.history + data
    ensures CanStep(s, PumpAcquires) && s.ws != Some(s.pump.target) ==> Step(s, PumpAcquires) == s.(pump := Idle)
  {
  }

  /** However a handler's section or a send fails, its socket is let go and no lock stays taken; a handler that
      has attached lets go when it leaves, and a session can be closed at any time. */
  lemma FailuresLetGo(s: State, w: Socket, k: nat)
    requires Inv(s)
    ensures w in s.clients && (s.clients[w].phase.Booting? || s.clients[w].phase.Greeting?) ==>
              CanStep(s, HandshakeFails(w)) && LetGo(Step(s, HandshakeFails(w)), w)
              && Step(s, HandshakeFails(w)).attachLock == None
    ensures CanStep(s, ReplayFails(w, k)) ==>
              LetGo(Step(s, ReplayFails(w, k)), w)
              && Step(s, ReplayFails(w, k)).attachLock == None && Step(s, ReplayFails(w, k)).sendLock == None
    ensures w in s.clients && s.clients[w].phase.Serving? ==>
              CanStep(s, Leave(w)) && LetGo(Step(s, Leave(w)), w)
    ensures CanStep(s, PumpFailed(k)) ==>
              var t := Step(s, PumpFailed(k));
              t.sendLock == None && t.ws != Some(s.pump.target) && t.pump == if s.ended then Dead else Idle
    ensures var t := Step(s, CloseEnds);
            t.ended && t.ws == None && t.pump == if s.pump.Sending? then s.pump else Dead
    ensures CanStep(s, PumpExits) ==> Step(s, PumpExits).pump.Dead?
  {
  }

  /** A pump that has ended reads and sends nothing more. */
  lemma DeadPumpStays(s: State, a: Action)
    requires s.pump.Dead? && CanStep(s, a)
    ensures Step(s, a).pump.Dead? && Step(s, a).history == s.history
    ensures !a.PtyRead? && !a.PumpSent? && !a.PumpFailed?
  {
  }

  ghost predicate LetGo(t: State, w: Socket) {
    w in t.clients && t.clients[w].phase.Gone? && t.ws != Some(w)
  }
}

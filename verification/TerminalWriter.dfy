/** `_write_all` on behalf of sockets that come and go: who is parked on the PTY, who is woken, and
    whose bytes reach the shell. */
module TerminalWriter {
  import opened Options
  import opened TerminalRing

  /** One `_write_all` call; `written` counts the bytes the PTY has taken. */
  datatype WritePhase = Running | Parked(future: nat) | Finished | Failed

  datatype Writer = Writer(ws: Socket, data: Bytes, written: nat, phase: WritePhase)

  /** `watch` is the future the loop's fd callback would resolve; `input` is what the shell was given,
      each byte tagged with the call that wrote it. */
  datatype State = State(
    ws: Option<Socket>, closed: bool, waiter: Option<nat>, watch: Option<nat>,
    futures: map<nat, Wake>, writers: map<nat, Writer>, input: seq<(nat, byte)>)

  datatype Action =
    | Begin(i: nat, data: Bytes)
    | Turn(i: nat, n: nat)
    | Park(i: nat, future: nat)
    | ParkFails(i: nat, future: nat)
    | FdWritable
    | Resume(i: nat)
    | CancelWrite(i: nat)
    | Detach(w: Socket)
    | Attach(w: Socket)
    | Close
    | CloseEnds

  predicate Active(p: WritePhase) {
    p.Running? || p.Parked?
  }

  predicate IsParked(s: State, i: nat) {
    i in s.writers && s.writers[i].phase.Parked? && s.writers[i].phase.future in s.futures
  }

  predicate CanStep(s: State, a: Action) {
    match a
    case Begin(i, data) =>                     // one handler per socket, which awaits each frame in turn
      && i !in s.writers && s.ws.Some?
      && forall j :: j in s.writers && s.writers[j].ws == s.ws.value ==> !Active(s.writers[j].phase)
    case Turn(i, n) => i in s.writers && s.writers[i].phase.Running? && s.writers[i].written + n <= |s.writers[i].data|
    case Park(i, future) =>
      && i in s.writers && s.writers[i].phase.Running? && s.writers[i].written < |s.writers[i].data|
      && future !in s.futures
    case ParkFails(i, future) =>
      && i in s.writers && s.writers[i].phase.Running? && s.writers[i].written < |s.writers[i].data|
      && future !in s.futures
    case FdWritable => s.watch.Some?
    case Resume(i) => IsParked(s, i) && !s.futures[s.writers[i].phase.future].Pending?
    case CancelWrite(i) => IsParked(s, i)
    case Detach(w) => true
    case Attach(w) => s.ws.None?
    case Close => true
    case CloseEnds => s.closed
  }

  function Tagged(i: nat, data: Bytes): seq<(nat, byte)> {
    seq(|data|, k requires 0 <= k < |data| => (i, data[k]))
  }

  function SetWriter(s: State, i: nat, p: WritePhase): State
    requires i in s.writers
  {
    s.(writers := s.writers[i := s.writers[i].(phase := p)])
  }

  function Wakes(futures: map<nat, Wake>, f: nat, wake: Wake): map<nat, Wake> {
    if f in futures && futures[f].Pending? then futures[f := wake] else futures
  }

  /** `_remove_writer`. */
  function RemoveWriter(s: State, wake: Wake): State {
    s.(waiter := None, watch := None,
    futures := if s.waiter.Some? then Wakes(s.futures, s.waiter.value, wake) else s.futures)
  }

  /** The `finally` of the wait: only the call's own registration is torn down. */
  function CleanUp(s: State, future: nat): State {
    if s.waiter == Some(future) then RemoveWriter(s, Ready) else s
  }

  predicate MayWrite(s: State, w: Writer) {
    !s.closed && s.ws == Some(w.ws)
  }

  function Step(s: State, a: Action): State
    requires CanStep(s, a)
  {
    match a
    case Begin(i, data) => s.(writers := s.writers[i := Writer(s.ws.value, data, 0, Running)])
    case Turn(i, n) =>
      var w := s.writers[i];
      if w.written == |w.data| then SetWriter(s, i, Finished)
      else if !MayWrite(s, w) then SetWriter(s, i, Failed)
      else s.(writers := s.writers[i := w.(written := w.written + n)],
              input := s.input + Tagged(i, w.data[w.written..w.written + n]))
    case Park(i, future) =>                    // the write would have blocked
      if !MayWrite(s, s.writers[i]) then SetWriter(s, i, Failed)
      else SetWriter(s, i, Parked(future)).
           (waiter := Some(future), watch := Some(future), futures := s.futures[future := Pending])
    case ParkFails(i, future) =>               // add_writer raised
      if !MayWrite(s, s.writers[i]) then SetWriter(s, i, Failed)
      else SetWriter(s, i, Failed).(waiter := None, futures := s.futures[future := Pending])
    case FdWritable => s.(futures := Wakes(s.futures, s.watch.value, Ready))
    case Resume(i) =>
      var f := s.writers[i].phase.future;
      SetWriter(CleanUp(s, f), i, if s.futures[f].GiveUp? then Failed else Running)
    case CancelWrite(i) =>
      var f := s.writers[i].phase.future;
      SetWriter(CleanUp(s.(futures := Wakes(s.futures, f, GiveUp)), f), i, Failed)
    case Detach(w) => if s.ws == Some(w) then RemoveWriter(s, GiveUp).(ws := None) else s
    case Attach(w) => s.(ws := Some(w))
    case Close => if s.closed then s else RemoveWriter(s, GiveUp).(closed := true)
    case CloseEnds => s.(ws := None)
  }

  const FRESH := State(None, false, None, None, map[], map[], [])

  ghost predicate Follows(s: State, t: State) {
    exists a :: CanStep(s, a) && t == Step(s, a)
  }

  ghost predicate IsRun(run: seq<State>) {
    && run != [] && run[0] == FRESH
    && forall i {:trigger StepsAt(run, i)} :: StepsAt(run, i)
  }

  ghost predicate StepsAt(run: seq<State>, i: int) {
    0 <= i < |run| - 1 ==> Follows(run[i], run[i + 1])
  }

  // ---- the invariant ----

  /** What call `i` put into the shell's input, in order. */
  function Of(input: seq<(nat, byte)>, i: nat): Bytes {
    if input == [] then []
    else
      var rest := Of(input[..|input| - 1], i);
      if input[|input| - 1].0 == i then rest + [input[|input| - 1].1] else rest
  }

  lemma OfOne(input: seq<(nat, byte)>, i: nat, j: nat, b: byte)
    ensures Of(input + [(j, b)], i) == if i == j then Of(input, i) + [b] else Of(input, i)
  {
    assert (input + [(j, b)])[..|input|] == input;
  }

  lemma TaggedGrows(j: nat, data: Bytes, last: nat)
    requires |data| == last + 1
    ensures Tagged(j, data) == Tagged(j, data[..last]) + [(j, data[last])]
  {
  }

  lemma {:induction false} OfAppend(input: seq<(nat, byte)>, i: nat, j: nat, data: Bytes)
    ensures Of(input + Tagged(j, data), i) == Of(input, i) + (if i == j then data else [])
  {
    if data == [] {
      assert input + Tagged(j, data) == input;
    } else {
      var last := |data| - 1;
      var front := input + Tagged(j, data[..last]);
      OfAppend(input, i, j, data[..last]);
      TaggedGrows(j, data, last);
      assert input + Tagged(j, data) == front + [(j, data[last])];
      OfOne(front, i, j, data[last]);
      assert data == data[..last] + [data[last]];
    }
  }

  /** A call parked on an unresolved future is the registered one: the fd and a detach both reach it,
      and its socket is attached to a live session. */
  ghost predicate WriterOk(s: State, i: nat)
    requires i in s.writers
  {
    var w := s.writers[i];
    && w.written <= |w.data|
    && Of(s.input, i) == w.data[..w.written]
    && (w.phase.Finished? ==> w.written == |w.data|)
    && (w.phase.Parked? ==>
          && w.phase.future in s.futures && w.written < |w.data|
          && (s.futures[w.phase.future].Pending? ==>
                && s.waiter == Some(w.phase.future) && s.watch == Some(w.phase.future)
                && MayWrite(s, w)))
  }

  /** Two calls in progress serve different sockets and wait on different futures. */
  ghost predicate Apart(s: State, i: nat, j: nat)
    requires i in s.writers && j in s.writers
  {
    var v, w := s.writers[i], s.writers[j];
    Active(v.phase) && Active(w.phase) ==>
      v.ws != w.ws && (v.phase.Parked? && w.phase.Parked? ==> v.phase.future != w.phase.future)
  }

  ghost predicate Inv(s: State) {
    && (s.waiter.Some? ==> s.waiter.value in s.futures)
    && (s.watch.Some? ==> s.watch.value in s.futures)
    && (forall k :: 0 <= k < |s.input| ==> s.input[k].0 in s.writers)
    && (forall i :: i in s.writers ==> WriterOk(s, i))
    && forall i, j :: i in s.writers && j in s.writers && i != j ==> Apart(s, i, j)
  }

  lemma {:induction false} OfStranger(input: seq<(nat, byte)>, i: nat)
    requires forall k :: 0 <= k < |input| ==> input[k].0 != i
    ensures Of(input, i) == []
  {
    if input != [] { OfStranger(input[..|input| - 1], i); }
  }

  lemma BeginKeepsInv(s: State, v: nat, data: Bytes)
    requires Inv(s) && CanStep(s, Begin(v, data))
    ensures Inv(Step(s, Begin(v, data)))
  {
    var t := Step(s, Begin(v, data));
    OfStranger(s.input, v);
    forall i | i in t.writers ensures WriterOk(t, i) {
      if i in s.writers { assert WriterOk(s, i); }
    }
    forall i, j | i in t.writers && j in t.writers && i != j ensures Apart(t, i, j) {
      if i in s.writers && j in s.writers { assert Apart(s, i, j); }
    }
  }

  /** The shell takes some more of a frame. */
  lemma WriteKeepsInv(s: State, v: nat, n: nat)
    requires Inv(s) && CanStep(s, Turn(v, n)) && MayWrite(s, s.writers[v])
    requires s.writers[v].written < |s.writers[v].data|
    ensures Inv(Step(s, Turn(v, n)))
  {
    var t := Step(s, Turn(v, n));
    var w := s.writers[v];
    var part := w.data[w.written..w.written + n];
    assert w.data[..w.written] + part == w.data[..w.written + n];
    forall i | i in t.writers ensures WriterOk(t, i) {
      WriteKeepsWriter(s, v, n, i);
    }
    forall i, j | i in t.writers && j in t.writers && i != j ensures Apart(t, i, j) {
      assert Apart(s, i, j);
    }
  }

  lemma WriteKeepsWriter(s: State, v: nat, n: nat, i: nat)
    requires i in s.writers && v in s.writers && WriterOk(s, i) && WriterOk(s, v)
    requires CanStep(s, Turn(v, n)) && MayWrite(s, s.writers[v]) && s.writers[v].written < |s.writers[v].data|
    ensures WriterOk(Step(s, Turn(v, n)), i)
  {
    var w := s.writers[v];
    var part := w.data[w.written..w.written + n];
    OfAppend(s.input, i, v, part);
    assert w.data[..w.written] + part == w.data[..w.written + n];
    assert Of(s.input, i) + [] == Of(s.input, i);
  }

  /** A turn of the loop that ends the call instead: all written, closed, or replaced. */
  lemma EndKeepsInv(s: State, v: nat, p: WritePhase)
    requires Inv(s) && v in s.writers && s.writers[v].phase.Running?
    requires p == Failed || (p == Finished && s.writers[v].written == |s.writers[v].data|)
    ensures Inv(SetWriter(s, v, p))
  {
    var t := SetWriter(s, v, p);
    forall i | i in t.writers ensures WriterOk(t, i) {
      assert WriterOk(s, i);
    }
    forall i, j | i in t.writers && j in t.writers && i != j ensures Apart(t, i, j) {
      assert Apart(s, i, j);
    }
  }

  lemma TurnKeepsInv(s: State, v: nat, n: nat)
    requires Inv(s) && CanStep(s, Turn(v, n))
    ensures Inv(Step(s, Turn(v, n)))
  {
    var w := s.writers[v];
    if w.written == |w.data| {
      EndKeepsInv(s, v, Finished);
    } else if !MayWrite(s, w) {
      EndKeepsInv(s, v, Failed);
    } else {
      WriteKeepsInv(s, v, n);
    }
  }

  /** Nobody else can be waiting when a call parks: it would serve the same attached socket. */
  lemma NobodyIsOverwritten(s: State, v: nat, future: nat)
    requires Inv(s) && CanStep(s, Park(v, future)) && MayWrite(s, s.writers[v])
    ensures forall i :: IsParked(s, i) ==> !s.futures[s.writers[i].phase.future].Pending?
  {
    forall i | IsParked(s, i) ensures !s.futures[s.writers[i].phase.future].Pending? {
      assert WriterOk(s, i) && Apart(s, i, v);
    }
  }

  /** Only the parking call registers anything, so it is the only one that can be waiting. */
  lemma ParkedKeepsInv(s: State, v: nat, future: nat, a: Action)
    requires Inv(s) && CanStep(s, a) && (a == Park(v, future) || a == ParkFails(v, future))
    requires MayWrite(s, s.writers[v])
    ensures Inv(Step(s, a))
  {
    var t := Step(s, a);
    assert CanStep(s, Park(v, future));
    NobodyIsOverwritten(s, v, future);
    forall i | i in t.writers ensures WriterOk(t, i) {
      assert WriterOk(s, i);
      assert s.writers[i].phase.Parked? ==> IsParked(s, i);
    }
    forall i, j | i in t.writers && j in t.writers && i != j ensures Apart(t, i, j) {
      ParkKeepsApart(s, v, future, a, i, j);
    }
  }

  lemma ParkKeepsApart(s: State, v: nat, future: nat, a: Action, i: nat, j: nat)
    requires CanStep(s, a) && (a == Park(v, future) || a == ParkFails(v, future))
    requires MayWrite(s, s.writers[v])
    requires i in s.writers && j in s.writers && i != j && WriterOk(s, i) && WriterOk(s, j) && Apart(s, i, j)
    ensures Apart(Step(s, a), i, j)
  {
  }

  lemma ParkKeepsInv(s: State, v: nat, future: nat, a: Action)
    requires Inv(s) && CanStep(s, a) && (a == Park(v, future) || a == ParkFails(v, future))
    ensures Inv(Step(s, a))
  {
    if MayWrite(s, s.writers[v]) {
      ParkedKeepsInv(s, v, future, a);
    } else {
      EndKeepsInv(s, v, Failed);
    }
  }

  /** A woken or cancelled call leaves; whoever registered after it keeps its registration. */
  lemma LeaveKeepsWriter(s: State, v: nat, a: Action, i: nat)
    requires CanStep(s, a) && (a == Resume(v) || a == CancelWrite(v))
    requires i in s.writers && WriterOk(s, i) && WriterOk(s, v) && (i != v ==> Apart(s, i, v))
    ensures WriterOk(Step(s, a), i)
  {
  }

  lemma LeaveKeepsApart(s: State, v: nat, a: Action)
    requires Inv(s) && CanStep(s, a) && (a == Resume(v) || a == CancelWrite(v))
    ensures var t := Step(s, a);
            t.input == s.input && forall i, j :: i in t.writers && j in t.writers && i != j ==> Apart(t, i, j)
  {
    var t := Step(s, a);
    forall i, j | i in t.writers && j in t.writers && i != j ensures Apart(t, i, j) {
      assert Apart(s, i, j);
    }
  }

  lemma LeaveKeepsInv(s: State, v: nat, a: Action)
    requires Inv(s) && CanStep(s, a) && (a == Resume(v) || a == CancelWrite(v))
    ensures Inv(Step(s, a))
  {
    var t := Step(s, a);
    forall i | i in t.writers ensures WriterOk(t, i) {
      LeaveKeepsWriter(s, v, a, i);
    }
    LeaveKeepsApart(s, v, a);
  }

  /** Steps of the loop, the attach protocol and the session. */
  lemma OutsideKeepsInv(s: State, a: Action)
    requires Inv(s) && CanStep(s, a)
    requires a.FdWritable? || a.Detach? || a.Attach? || a.Close? || a.CloseEnds?
    ensures Inv(Step(s, a))
  {
    var t := Step(s, a);
    forall i | i in t.writers ensures WriterOk(t, i) {
      assert WriterOk(s, i);
    }
    forall i, j | i in t.writers && j in t.writers && i != j ensures Apart(t, i, j) {
      assert Apart(s, i, j);
    }
  }

  lemma StepKeepsInv(s: State, a: Action)
    requires Inv(s) && CanStep(s, a)
    ensures Inv(Step(s, a))
  {
    match a
    case Begin(i, data) => BeginKeepsInv(s, i, data);
    case Turn(i, n) => TurnKeepsInv(s, i, n);
    case Park(i, f) => ParkKeepsInv(s, i, f, a);
    case ParkFails(i, f) => ParkKeepsInv(s, i, f, a);
    case Resume(i) => LeaveKeepsInv(s, i, a);
    case CancelWrite(i) => LeaveKeepsInv(s, i, a);
    case _ => OutsideKeepsInv(s, a);
  }

  lemma {:induction false} RunKeepsInv(run: seq<State>, k: nat)
    requires IsRun(run) && k < |run|
    ensures Inv(run[k])
  {
    if k > 0 {
      RunKeepsInv(run, k - 1);
      assert StepsAt(run, k - 1);
      FollowKeeps(run[k - 1], run[k]);
    }
  }

  lemma FollowKeeps(s: State, t: State)
    requires Inv(s) && Follows(s, t)
    ensures Inv(t)
  {
    var a :| CanStep(s, a) && t == Step(s, a);
    StepKeepsInv(s, a);
  }

  // ---- the theorems ----

  /** Over every interleaving: what a call gave the shell is a prefix of its frame, in order and once,
      all of it if the call finished; and a call still waiting has not been forgotten. */
  lemma FramesArriveInOrder(run: seq<State>, i: nat)
    requires IsRun(run) && i in run[|run| - 1].writers
    ensures var s := run[|run| - 1];
            var w := s.writers[i];
            && w.written <= |w.data| && Of(s.input, i) == w.data[..w.written]
            && (w.phase.Finished? ==> Of(s.input, i) == w.data)
            && (IsParked(s, i) && s.futures[w.phase.future].Pending? ==>
                  s.waiter == Some(w.phase.future) && s.watch == Some(w.phase.future) && MayWrite(s, w))
  {
    RunKeepsInv(run, |run| - 1);
    assert WriterOk(run[|run| - 1], i);
  }

  /** Booting a socket always wakes the write parked for it, and that write then fails. */
  lemma BootedWriterGivesUp(run: seq<State>, w: Socket, i: nat)
    requires IsRun(run) && IsParked(run[|run| - 1], i) && run[|run| - 1].writers[i].ws == w
    requires run[|run| - 1].ws == Some(w) && run[|run| - 1].futures[run[|run| - 1].writers[i].phase.future].Pending?
    ensures var t := Step(run[|run| - 1], Detach(w));
            CanStep(t, Resume(i)) && Step(t, Resume(i)).writers[i].phase.Failed?
  {
    RunKeepsInv(run, |run| - 1);
    assert WriterOk(run[|run| - 1], i);
  }

  /** So does closing the session, for whoever is parked. */
  lemma ClosedWriterGivesUp(run: seq<State>, i: nat)
    requires IsRun(run) && IsParked(run[|run| - 1], i) && !run[|run| - 1].closed
    requires run[|run| - 1].futures[run[|run| - 1].writers[i].phase.future].Pending?
    ensures var t := Step(run[|run| - 1], Close);
            CanStep(t, Resume(i)) && Step(t, Resume(i)).writers[i].phase.Failed?
  {
    RunKeepsInv(run, |run| - 1);
    assert WriterOk(run[|run| - 1], i);
  }

  /** Who may write: a detach lets its own socket go and nobody else, a page that attaches owns the PTY, and a
      closed session is never written to again, by anybody. */
  lemma OwnersChange(s: State, w: Socket, v: Writer)
    ensures Step(s, Detach(w)).ws == if s.ws == Some(w) then None else s.ws
    ensures s.ws == Some(w) ==> Step(s, Detach(w)).waiter == None && Step(s, Detach(w)).watch == None
    ensures CanStep(s, Attach(w)) ==> Step(s, Attach(w)) == s.(ws := Some(w))
    ensures CanStep(s, Close) && Step(s, Close).closed && !MayWrite(Step(s, Close), v)
    ensures CanStep(s, CloseEnds) ==> Step(s, CloseEnds) == s.(ws := None)
  {
  }

  /** A write parked until the PTY can take more goes on as soon as it can, where it stopped. */
  lemma WritableGoesOn(run: seq<State>, i: nat)
    requires IsRun(run) && IsParked(run[|run| - 1], i)
    requires run[|run| - 1].futures[run[|run| - 1].writers[i].phase.future].Pending?
    ensures var s := run[|run| - 1];
            && CanStep(s, FdWritable) && CanStep(Step(s, FdWritable), Resume(i))
            && Step(Step(s, FdWritable), Resume(i)).writers[i] == s.writers[i].(phase := Running)
  {
    RunKeepsInv(run, |run| - 1);
    assert WriterOk(run[|run| - 1], i);
  }

  /** A frame of the attached socket that the PTY takes at once arrives whole, and the call finishes. */
  lemma FrameGoesThrough(s: State, i: nat, data: Bytes)
    requires CanStep(s, Begin(i, data)) && !s.closed
    ensures var begun := Step(s, Begin(i, data));
            var t := if data == [] then begun else Step(begun, Turn(i, |data|));
            && CanStep(t, Turn(i, 0))
            && Step(t, Turn(i, 0)).writers[i].phase.Finished?
            && Step(t, Turn(i, 0)).input == s.input + Tagged(i, data)
            && Step(t, Turn(i, 0)).waiter == s.waiter && Step(t, Turn(i, 0)).ws == s.ws
  {
    assert data[0..0 + |data|] == data;
    assert data == [] ==> s.input + Tagged(i, data) == s.input;
  }

  /** A call whose socket was replaced, or whose session was closed, fails at its next step without a byte. */
  lemma ReplacedCallFails(s: State, i: nat, a: Action)
    requires i in s.writers && CanStep(s, a) && !MayWrite(s, s.writers[i])
    requires s.writers[i].written < |s.writers[i].data|
    requires (a.Turn? || a.Park? || a.ParkFails?) && a.i == i
    ensures Step(s, a) == s.(writers := s.writers[i := s.writers[i].(phase := Failed)])
  {
  }

  /** A call that would block waits on a fresh future that the fd will resolve; if it cannot be watched, or the
      wait is cancelled, the call fails and leaves no registration of its own behind. */
  lemma BlockedCallWaits(s: State, i: nat, future: nat)
    requires i in s.writers && MayWrite(s, s.writers[i])
    ensures CanStep(s, Park(i, future)) ==>
              var t := Step(s, Park(i, future));
              && IsParked(t, i) && t.writers[i].phase.future == future && t.futures[future].Pending?
              && t.waiter == Some(future) && t.watch == Some(future) && t.input == s.input
    ensures CanStep(s, ParkFails(i, future)) ==>
              var t := Step(s, ParkFails(i, future));
              t.writers[i].phase.Failed? && t.waiter == None && t.input == s.input
    ensures CanStep(s, CancelWrite(i)) ==>
              var t := Step(s, CancelWrite(i));
              t.writers[i].phase.Failed? && t.waiter != Some(s.writers[i].phase.future) && t.input == s.input
  {
  }

  /** Step m of the run gave the shell its k-th byte, from a call whose socket was attached at that moment
      to a session not closed. */
  ghost predicate OwnerWrote(run: seq<State>, m: nat, k: nat) {
    && m + 1 < |run| && |run[m].input| <= k < |run[m + 1].input|
    && run[m + 1].input[k].0 in run[m].writers
    && MayWrite(run[m], run[m].writers[run[m + 1].input[k].0])
  }

  lemma InputGrows(s: State, t: State)
    requires Follows(s, t)
    ensures |s.input| <= |t.input| && t.input[..|s.input|] == s.input
    ensures forall k :: |s.input| <= k < |t.input| ==>
              t.input[k].0 in s.writers && MayWrite(s, s.writers[t.input[k].0])
  {
    var a :| CanStep(s, a) && t == Step(s, a);
  }

  /** Every byte the shell ever got was written by the owner of the moment, and stays where it is. */
  lemma {:induction false} OnlyTheOwnerWrites(run: seq<State>, n: nat, k: nat)
    requires IsRun(run) && n < |run| && k < |run[n].input|
    ensures exists m: nat :: m < n && OwnerWrote(run, m, k) && run[m + 1].input[k] == run[n].input[k]
  {
    if n > 0 {
      assert StepsAt(run, n - 1);
      InputGrows(run[n - 1], run[n]);
      if k < |run[n - 1].input| {
        OnlyTheOwnerWrites(run, n - 1, k);
        assert run[n].input[k] == run[n].input[..|run[n - 1].input|][k];
      } else {
        assert OwnerWrote(run, n - 1, k);
      }
    }
  }

  /** A woken predecessor cleans up after itself only: a successor waiting by then stays registered. */
  lemma SuccessorSurvives(run: seq<State>, i: nat, j: nat)
    requires IsRun(run) && CanStep(run[|run| - 1], Resume(i)) && IsParked(run[|run| - 1], j)
    requires run[|run| - 1].futures[run[|run| - 1].writers[j].phase.future].Pending?
    ensures var s, t := run[|run| - 1], Step(run[|run| - 1], Resume(i));
            && i != j && t.waiter == s.waiter == Some(s.writers[j].phase.future) && t.watch == s.watch
            && IsParked(t, j) && t.futures[t.writers[j].phase.future].Pending?
  {
    RunKeepsInv(run, |run| - 1);
    assert WriterOk(run[|run| - 1], j) && WriterOk(run[|run| - 1], i);
    assert i != j ==> Apart(run[|run| - 1], i, j);
  }
}

/** The table of live shells: serialized creation under a cap, and the sweep that frees idle slots. */
module TerminalRegistry {
  import opened Options

  const SESSION_TTL: int := 60 * 60
  const FORCE_GRACE: int := 5
  const MAX_SESSIONS: nat := 8

  /** Session ids are numbered in the order of creation, which is the order of the dictionary.
      `detachedAt` is 0 while a socket is attached. */
  datatype Session = Session(attached: bool, attaching: bool, detachedAt: int)

  type Sessions = map<nat, Session>

  /** A creator holds the creation lock from the cap check to the insertion, awaits included. */
  datatype Creator = Waiting | Spawning | Created(sid: nat) | TooMany | Failed

  datatype State = State(sessions: Sessions, next: nat, lock: Option<nat>, creators: map<nat, Creator>, now: int)

  datatype Action =
    | Tick(now: int)
    | Ask(c: nat)
    | TakeLock(c: nat)
    | SpawnDone(c: nat)
    | SpawnFails(c: nat)
    | Sweep
    | Closed(sid: nat)
    | AttachBegins(sid: nat)
    | AttachEnds(sid: nat, attached: bool)
    | Detached(sid: nat)

  predicate Idle(s: Session, now: int, longer: int) {
    !s.attached && !s.attaching && s.detachedAt != 0 && now - s.detachedAt > longer
  }

  function IdleFor(ss: Sessions, now: int, longer: int): set<nat> {
    set sid | sid in ss && Idle(ss[sid], now, longer)
  }

  /** `a` has been detached longer, or as long and was created first. */
  predicate Before(ss: Sessions, a: nat, b: nat)
    requires a in ss && b in ss
  {
    ss[a].detachedAt < ss[b].detachedAt || (ss[a].detachedAt == ss[b].detachedAt && a <= b)
  }

  function Oldest(ss: Sessions, among: set<nat>): set<nat>
    requires among <= ss.Keys
  {
    set a | a in among && forall b :: b in among ==> Before(ss, a, b)
  }

  /** `_reap_idle`: the stale sessions, or, forced and without any, the oldest past its grace. */
  function Reaped(ss: Sessions, now: int, force: bool): set<nat> {
    var stale := IdleFor(ss, now, SESSION_TTL);
    if force && stale == {} then Oldest(ss, IdleFor(ss, now, FORCE_GRACE)) else stale
  }

  function Reap(ss: Sessions, now: int, force: bool): Sessions {
    ss - Reaped(ss, now, force)
  }

  predicate CanStep(s: State, a: Action) {
    match a
    case Tick(now) => s.now <= now
    case Ask(c) => c !in s.creators
    case TakeLock(c) => c in s.creators && s.creators[c].Waiting? && s.lock.None?
    case SpawnDone(c) => c in s.creators && s.creators[c].Spawning?
    case SpawnFails(c) => c in s.creators && s.creators[c].Spawning?
    case Sweep => true
    case Closed(sid) => sid in s.sessions
    case AttachBegins(sid) => sid in s.sessions
    case AttachEnds(sid, attached) => sid in s.sessions && s.sessions[sid].attaching
    case Detached(sid) => sid in s.sessions
  }

  function SetCreator(s: State, c: nat, p: Creator): State {
    s.(creators := s.creators[c := p])
  }

  function SetSession(s: State, sid: nat, x: Session): State {
    s.(sessions := s.sessions[sid := x])
  }

  function Step(s: State, a: Action): State
    requires CanStep(s, a)
  {
    match a
    case Tick(now) => s.(now := now)
    case Ask(c) => SetCreator(s, c, Waiting)
    case TakeLock(c) =>
      var room := if |s.sessions| >= MAX_SESSIONS then Reap(s.sessions, s.now, true) else s.sessions;
      if |room| >= MAX_SESSIONS then SetCreator(s, c, TooMany).(sessions := room)
      else SetCreator(s, c, Spawning).(sessions := room, lock := Some(c))
    case SpawnDone(c) =>
      SetCreator(s, c, Created(s.next)).
      (sessions := s.sessions[s.next := Session(false, false, s.now)], next := s.next + 1, lock := None)
    case SpawnFails(c) => SetCreator(s, c, Failed).(lock := None)
    case Sweep => s.(sessions := Reap(s.sessions, s.now, false))
    case Closed(sid) => s.(sessions := s.sessions - {sid})
    case AttachBegins(sid) => SetSession(s, sid, s.sessions[sid].(attaching := true))
    case AttachEnds(sid, attached) =>
      var x := s.sessions[sid].(attaching := false);
      SetSession(s, sid, if attached then x.(attached := true, detachedAt := 0) else x)
    case Detached(sid) => SetSession(s, sid, s.sessions[sid].(attached := false, detachedAt := s.now))
  }

  /** While a creator is between its check and its insertion the slot it found stays free. */
  ghost predicate Inv(s: State) {
    && |s.sessions| <= MAX_SESSIONS
    && (s.lock.Some? ==> |s.sessions| < MAX_SESSIONS)
    && (forall c :: c in s.creators && s.creators[c].Spawning? ==> s.lock == Some(c))
    && forall sid :: sid in s.sessions ==> sid < s.next
  }

  lemma FewerKeys<T>(small: map<nat, T>, big: map<nat, T>)
    requires small.Keys <= big.Keys
    ensures |small| <= |big|
  {
    SubsetSize(small.Keys, big.Keys);
    assert |small| == |small.Keys| && |big| == |big.Keys|;
  }

  lemma TakeLockKeepsInv(s: State, c: nat)
    requires Inv(s) && CanStep(s, TakeLock(c))
    ensures Inv(Step(s, TakeLock(c)))
  {
    FewerKeys(Reap(s.sessions, s.now, true), s.sessions);
  }

  lemma SetKeepsInv(s: State, sid: nat, x: Session)
    requires Inv(s) && sid in s.sessions
    ensures Inv(SetSession(s, sid, x))
  {
    OneKeyMore(s.sessions, sid, x);
  }

  lemma StepKeepsInv(s: State, a: Action)
    requires Inv(s) && CanStep(s, a)
    ensures Inv(Step(s, a))
  {
    match a
    case TakeLock(c) => TakeLockKeepsInv(s, c);
    case SpawnDone(c) => OneKeyMore(s.sessions, s.next, Session(false, false, s.now));
    case Sweep => FewerKeys(Reap(s.sessions, s.now, false), s.sessions);
    case Closed(sid) => FewerKeys(s.sessions - {sid}, s.sessions);
    case AttachBegins(sid) => SetKeepsInv(s, sid, s.sessions[sid].(attaching := true));
    case AttachEnds(sid, attached) => SetKeepsInv(s, sid, Step(s, a).sessions[sid]);
    case Detached(sid) => SetKeepsInv(s, sid, s.sessions[sid].(attached := false, detachedAt := s.now));
    case _ =>
  }

  function Run(now: int, actions: seq<Action>): Option<State> {
    if actions == [] then Some(State(map[], 0, None, map[], now))
    else
      var before := Run(now, actions[..|actions| - 1]);
      var a := actions[|actions| - 1];
      if before.Some? && CanStep(before.value, a) then Some(Step(before.value, a)) else None
  }

  /** The cap holds in every run, although creation awaits between its check and the insertion; and
      creations are serial. */
  lemma {:induction false} CapHolds(now: int, actions: seq<Action>)
    ensures Run(now, actions).Some? ==> Inv(Run(now, actions).value)
  {
    if actions != [] {
      var front := actions[..|actions| - 1];
      CapHolds(now, front);
      if Run(now, front).Some? && CanStep(Run(now, front).value, actions[|actions| - 1]) {
        StepKeepsInv(Run(now, front).value, actions[|actions| - 1]);
      }
    }
  }

  /** No sweep touches a session with a socket, one that is being attached, or one within its grace. */
  lemma SweepSpares(ss: Sessions, now: int, force: bool, sid: nat)
    requires sid in ss
    requires ss[sid].attached || ss[sid].attaching || now - ss[sid].detachedAt <= FORCE_GRACE
    ensures sid in Reap(ss, now, force) && Reap(ss, now, force)[sid] == ss[sid]
  {
  }

  /** Without a socket, in nobody's attach section, and detached more than that long ago. */
  ghost predicate LeftAlone(x: Session, now: int, longer: int) {
    !x.attached && !x.attaching && x.detachedAt != 0 && x.detachedAt + longer < now
  }

  /** What a sweep takes, session by session: those left alone for an hour, or, forced and without any, one
      left alone for five seconds that no other such session was detached before. */
  lemma SweepTakes(ss: Sessions, now: int, force: bool, sid: nat)
    requires sid in ss
    ensures sid !in Reap(ss, now, force) <==>
              || LeftAlone(ss[sid], now, 3600)
              || (&& force && LeftAlone(ss[sid], now, 5)
                  && (forall x :: x in ss ==> !LeftAlone(ss[x], now, 3600))
                  && forall x :: x in ss && LeftAlone(ss[x], now, 5) ==>
                       ss[sid].detachedAt < ss[x].detachedAt
                       || (ss[sid].detachedAt == ss[x].detachedAt && sid <= x))
    ensures sid in Reap(ss, now, force) ==> Reap(ss, now, force)[sid] == ss[sid]
  {
    forall x | x in ss
      ensures x in IdleFor(ss, now, SESSION_TTL) <==> LeftAlone(ss[x], now, 3600)
      ensures x in IdleFor(ss, now, FORCE_GRACE) <==> LeftAlone(ss[x], now, 5)
    {
    }
  }

  /** A session leaves the table only when it is closed, or by a sweep while nobody uses it. */
  lemma OnlyUnusedLeave(s: State, a: Action, sid: nat)
    requires CanStep(s, a) && sid in s.sessions && sid !in Step(s, a).sessions
    ensures a == Closed(sid) || (a.Sweep? && LeftAlone(s.sessions[sid], s.now, 3600))
            || (a.TakeLock? && |s.sessions| >= 8 && LeftAlone(s.sessions[sid], s.now, 5))
  {
    SweepTakes(s.sessions, s.now, a.TakeLock?, sid);
  }

  /** Creation: with room nothing is swept and the creator goes on to spawn; at the cap it goes on exactly if
      some session may go, and is told otherwise, with the table as it was. */
  lemma CreationIsExact(s: State, c: nat)
    requires Inv(s) && CanStep(s, TakeLock(c))
    ensures var t := Step(s, TakeLock(c));
            var mayGo := exists x :: x in s.sessions && LeftAlone(s.sessions[x], s.now, 5);
            && (|s.sessions| < 8 ==> t.sessions == s.sessions && t.creators[c].Spawning?)
            && (|s.sessions| == 8 ==> (t.creators[c].Spawning? <==> mayGo))
            && (t.creators[c].Spawning? ==> t.lock == Some(c))
            && (!t.creators[c].Spawning? ==>
                  t.creators[c].TooMany? && t.lock == None && t.sessions == s.sessions)
  {
    if |s.sessions| == MAX_SESSIONS {
      AtTheCap(s.sessions, s.now);
    }
  }

  /** A creator that asks may go as soon as no other creation is under way. */
  lemma AskedMayGo(s: State, c: nat)
    requires CanStep(s, Ask(c)) && s.lock.None?
    ensures CanStep(Step(s, Ask(c)), TakeLock(c)) && Step(s, Ask(c)).sessions == s.sessions
  {
  }

  lemma AtTheCap(ss: Sessions, now: int)
    ensures (exists x :: x in ss && LeftAlone(ss[x], now, 5)) ==> |Reap(ss, now, true)| < |ss|
    ensures !(exists x :: x in ss && LeftAlone(ss[x], now, 5)) ==> Reap(ss, now, true) == ss
  {
    if x :| x in ss && LeftAlone(ss[x], now, 5) {
      assert x in IdleFor(ss, now, FORCE_GRACE);
      ForcedSweepFreesOne(ss, now);
    } else {
      assert IdleFor(ss, now, FORCE_GRACE) == {} && IdleFor(ss, now, SESSION_TTL) == {};
    }
  }

  /** A spawn that succeeds adds one fresh session that nobody is attached to; either way the next creator
      may go. */
  lemma SpawnIsExact(s: State, c: nat)
    requires Inv(s) && CanStep(s, SpawnDone(c))
    ensures var t := Step(s, SpawnDone(c));
            && s.next !in s.sessions && t.sessions == s.sessions[s.next := Session(false, false, s.now)]
            && t.creators[c] == Created(s.next) && t.lock == None && t.next == s.next + 1
    ensures var t := Step(s, SpawnFails(c));
            t.sessions == s.sessions && t.creators[c] == Failed && t.lock == None
  {
  }

  /** Attaching and detaching change one session, and only in who uses it and since when nobody does. */
  lemma UseIsExact(s: State, sid: nat, attached: bool)
    requires sid in s.sessions
    ensures Step(s, AttachBegins(sid)).sessions == s.sessions[sid := s.sessions[sid].(attaching := true)]
    ensures s.sessions[sid].attaching ==>
              Step(s, AttachEnds(sid, attached)).sessions
              == s.sessions[sid := if attached then Session(true, false, 0) else s.sessions[sid].(attaching := false)]
    ensures Step(s, Detached(sid)).sessions
            == s.sessions[sid := Session(false, s.sessions[sid].attaching, s.now)]
    ensures Step(s, Closed(sid)).sessions == s.sessions - {sid}
    ensures Step(s, Sweep).sessions == Reap(s.sessions, s.now, false)
  {
  }

  lemma {:induction false} OldestExists(ss: Sessions, among: set<nat>) returns (o: nat)
    requires among <= ss.Keys && among != {}
    ensures o in Oldest(ss, among)
  {
    var x :| x in among;
    if among == {x} {
      o := x;
    } else {
      var rest := among - {x};
      assert among == rest + {x};
      var p := OldestExists(ss, rest);
      o := if Before(ss, x, p) then x else p;
    }
  }

  /** At the cap a forced sweep frees a slot whenever some session may go, and without stale sessions
      it takes exactly one, the one detached longest. */
  lemma ForcedSweepFreesOne(ss: Sessions, now: int)
    requires IdleFor(ss, now, FORCE_GRACE) != {}
    ensures |Reap(ss, now, true)| < |ss|
    ensures IdleFor(ss, now, SESSION_TTL) == {} ==>
              exists o :: Reaped(ss, now, true) == {o} && o in ss
                          && forall b :: b in IdleFor(ss, now, FORCE_GRACE) ==> Before(ss, o, b)
  {
    var stale, evictable := IdleFor(ss, now, SESSION_TTL), IdleFor(ss, now, FORCE_GRACE);
    var o := OldestExists(ss, evictable);
    var gone := Reaped(ss, now, true);
    if stale == {} {
      assert forall x :: x in gone ==> Before(ss, x, o) && Before(ss, o, x);
      assert gone == {o};
    }
    assert gone != {} && gone <= ss.Keys;
    assert (ss - gone).Keys == ss.Keys - gone;
    SubsetSize(ss.Keys - gone, ss.Keys);
    assert |ss - gone| == |(ss - gone).Keys| && |ss| == |ss.Keys|;
  }
}

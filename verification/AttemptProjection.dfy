/** `attempts.jsonl` as a cache of the attempts table: the one-line append, the full rebuild, and
    the durable cursor between them, with other processes, outside edits and crashes in between. */
module AttemptProjection {
  import opened Options
  import opened AttemptOrder
  import opened AttemptHistory

  /** The name `attempts.jsonl` in the bundle. A seal is the identity, size and times of one write. */
  datatype File = Missing | Obstructed | Regular(seal: nat, bytes: string)

  /** What others may do at any point where the projector can be interrupted. */
  datatype EnvStep =
    | Commit(attemptId: nat, gap: nat, createdAt: int, body: string)
    | Rewrite(bytes: string)
    | Remove
    | Obstruct

  /** `_write_state` may fail before or after its atomic replace. */
  datatype StateWrite = Installed | NotInstalled | InstalledThenFailed

  datatype AppendFault = Sound | OpenFails | ShortWrite(kept: nat) | SyncFails

  datatype Faults = Faults(
    busy: bool, unreadable: bool, append: AppendFault, appendState: StateWrite,
    renderFails: bool, replaceFails: bool, syncFails: bool, rebuildState: StateWrite)

  /** What the locked section does next. */
  datatype Plan = UpToDate | AppendOne(candidate: Row) | FullRebuild

  const NO_FAULTS := Faults(false, false, Sound, Installed, false, false, false, Installed)

  /** `Projected` is True, `Pending` is False; `Crashed` never returned. */
  datatype Outcome = Projected | Pending | Crashed

  function At(env: seq<seq<EnvStep>>, point: nat): seq<EnvStep> {
    if point < |env| then env[point] else []
  }

  /** Others commit rows at most: nobody touches the file. */
  predicate Quiet(steps: seq<EnvStep>) {
    forall i :: 0 <= i < |steps| ==> steps[i].Commit?
  }

  /** The file is left alone from the last check of its seal on: after the first seal check of a call
      that finds nothing to do, after the check of the appended file, or after that of the rebuilt one.
      Earlier edits are allowed; the checks see them. */
  predicate QuietSinceCheck(env: seq<seq<EnvStep>>, how: Plan) {
    match how
    case UpToDate => Quiet(At(env, 1)) && Quiet(At(env, 2)) && Quiet(At(env, 3))
    case AppendOne(_) => Quiet(At(env, 5))
    case FullRebuild => Quiet(At(env, 12))
  }

  /** What a write cut short leaves of a text. */
  function Cut(text: string, kept: nat): string {
    if kept < |text| then text[..kept] else text
  }

  /** The row a commit adds: ids grow, possibly with gaps. */
  function Committed(rows: seq<Row>, step: EnvStep): Row
    requires step.Commit?
  {
    var last := if rows == [] then 0 else rows[|rows| - 1].id;
    Row(last + 1 + step.gap, step.attemptId, step.createdAt, step.body)
  }

  /** The uuids minted once these steps have been taken. */
  ghost function Minted(used: set<nat>, steps: seq<EnvStep>): set<nat> {
    if steps == [] then used
    else
      var front, last := Minted(used, steps[..|steps| - 1]), steps[|steps| - 1];
      if last.Commit? then front + {last.attemptId} else front
  }

  /** The table after them; a uuid is never minted twice. */
  ghost function RowsAfter(rows: seq<Row>, used: set<nat>, steps: seq<EnvStep>): seq<Row> {
    if steps == [] then rows
    else
      var front, last := steps[..|steps| - 1], steps[|steps| - 1];
      var before := RowsAfter(rows, used, front);
      if last.Commit? && last.attemptId !in Minted(used, front) then before + [Committed(before, last)] else before
  }

  /** How many of them touch the file. */
  ghost function Edits(steps: seq<EnvStep>): nat {
    if steps == [] then 0 else Edits(steps[..|steps| - 1]) + if steps[|steps| - 1].Commit? then 0 else 1
  }

  /** What the name holds after them, every write under the next seal. */
  ghost function FileAfter(f: File, seal: nat, steps: seq<EnvStep>): File {
    if steps == [] then f
    else
      var front, last := steps[..|steps| - 1], steps[|steps| - 1];
      match last
      case Commit(_, _, _, _) => FileAfter(f, seal, front)
      case Rewrite(bytes) => Regular(seal + Edits(front), bytes)
      case Remove => Missing
      case Obstruct => Obstructed
  }

  /** The largest id of a listing of a table belongs to the row inserted last. */
  lemma MaxIdIsLast(rows: seq<Row>, listing: seq<Row>, r: Row)
    requires Table(rows) && DistinctAttempts(rows) && listing == OrderBy(rows)
    requires r in listing && forall x :: x in listing ==> x.id <= r.id
    ensures rows != [] && r == rows[|rows| - 1]
  {
    OrderByMembers(rows, r);
    var k :| 0 <= k < |rows| && rows[k] == r;
    OrderByMembers(rows, rows[|rows| - 1]);
    assert forall i :: 0 <= i < |rows| - 1 ==> rows[i].id < rows[|rows| - 1].id;
  }

  class ProjectionStore {
    const line: Row -> string        // _projection_line
    var rows: seq<Row>               // the lesson's rows, in id order
    var used: set<nat>               // attempt uuids ever minted
    var file: File
    var nextSeal: nat
    var sidecar: Option<Cursor>
    ghost var past: set<seq<Row>>    // every table the database ever held
    ghost var basis: seq<Row>        // the table the sidecar was published for
    ghost var outside: nat           // edits of the file by anyone but the projector

    /** A sidecar certifies the file: while the seal matches, the content is the rebuild of `basis`. */
    ghost predicate Certified(c: Cursor)
      reads this
    {
      && basis in past
      && c == CursorOf(basis, c.seal)
      && c.seal < nextSeal
      && (file.Regular? && file.seal == c.seal ==> file.bytes == Rendered(line, basis))
    }

    ghost predicate Valid()
      reads this
    {
      && History(past, used)
      && rows in past
      && (file.Regular? ==> file.seal < nextSeal)
      && (sidecar.Some? ==> Certified(sidecar.value))
    }

    /** The effect others can have between two points of a projection. */
    twostate predicate OthersRan()
      reads this
    {
      && old(rows) <= rows
      && old(past) <= past
      && sidecar == old(sidecar) && basis == old(basis)
      && old(nextSeal) <= nextSeal && old(outside) <= outside
      && (outside == old(outside) ==> file == old(file))
      && (file.Regular? && file.seal < old(nextSeal) ==> file == old(file))
    }

    constructor (line: Row -> string)
      ensures Valid() && rows == [] && file == Missing && sidecar == None && this.line == line
    {
      this.line := line;
      rows := [];
      used := {};
      file := Missing;
      nextSeal := 0;
      sidecar := None;
      past := {[]};
      basis := [];
      outside := 0;
    }

    /** One committed row, from this or another process; its stamp may lie in the past. */
    method Insert(attemptId: nat, gap: nat, createdAt: int, body: string)
      requires Valid() && attemptId !in used
      modifies this
      ensures Valid() && OthersRan() && file == old(file) && outside == old(outside)
      ensures rows == old(rows) + [Committed(old(rows), Commit(attemptId, gap, createdAt, body))]
      ensures used == old(used) + {attemptId} && nextSeal == old(nextSeal)
    {
      var r := Committed(rows, Commit(attemptId, gap, createdAt, body));
      CommitKeepsHistory(past, used, rows, r);
      past := past + {rows + [r]};
      used := used + {attemptId};
      rows := rows + [r];
    }

    /** The database is put back to any table it once held. */
    method Restore(table: seq<Row>)
      requires Valid() && table in past
      modifies this
      ensures Valid() && rows == table
      ensures file == old(file) && sidecar == old(sidecar) && basis == old(basis) && past == old(past)
    {
      rows := table;
    }

    method LoseSidecar()
      requires Valid()
      modifies this
      ensures Valid() && sidecar == None && rows == old(rows) && file == old(file)
    {
      sidecar := None;
    }

    method WriteOutside(f: File)
      requires Valid() && (f.Regular? ==> f.seal == nextSeal)
      modifies this
      ensures Valid() && OthersRan() && file == f && rows == old(rows) && outside == old(outside) + 1
      ensures nextSeal == old(nextSeal) + 1 && used == old(used)
    {
      nextSeal := nextSeal + 1;
      outside := outside + 1;
      file := f;
    }

    method Interfere(steps: seq<EnvStep>)
      requires Valid()
      modifies this
      ensures Valid() && OthersRan()
      ensures Quiet(steps) ==> file == old(file) && outside == old(outside)
      ensures steps == [] ==> rows == old(rows) && file == old(file) && outside == old(outside)
      ensures rows == RowsAfter(old(rows), old(used), steps) && file == FileAfter(old(file), old(nextSeal), steps)
    {
      for i := 0 to |steps|
        invariant Valid() && OthersRan()
        invariant used == Minted(old(used), steps[..i]) && nextSeal == old(nextSeal) + Edits(steps[..i])
        invariant rows == RowsAfter(old(rows), old(used), steps[..i])
        invariant file == FileAfter(old(file), old(nextSeal), steps[..i])
        invariant Quiet(steps) ==> file == old(file) && outside == old(outside)
        invariant i == 0 ==> rows == old(rows)
      {
        assert steps[..i + 1][..i] == steps[..i];
        match steps[i]
        case Commit(attemptId, gap, createdAt, body) =>
          if attemptId !in used {   // a uuid is never minted twice
            Insert(attemptId, gap, createdAt, body);
          }
        case Rewrite(bytes) => WriteOutside(Regular(nextSeal, bytes));
        case Remove => WriteOutside(Missing);
        case Obstruct => WriteOutside(Obstructed);
      }
      assert steps[..|steps|] == steps;
    }

    /** `_write_state`: the sidecar is replaced atomically, whatever the call then answers. */
    method WriteState(c: Cursor, ghost table: seq<Row>, how: StateWrite) returns (ok: bool)
      requires Valid() && table in past && c == CursorOf(table, c.seal) && c.seal < nextSeal
      requires file.Regular? && file.seal == c.seal ==> file.bytes == Rendered(line, table)
      modifies this`sidecar, this`basis
      ensures Valid() && (ok <==> how.Installed?)
      ensures if how.NotInstalled? then sidecar == old(sidecar) && basis == old(basis)
              else sidecar == Some(c) && basis == table
    {
      if !how.NotInstalled? {
        sidecar := Some(c);
        basis := table;
      }
      ok := how.Installed?;
    }

    /** The streaming loop of `_rebuild_projection`: text, largest id, and last key of the listing. */
    method RenderRows(listing: seq<Row>) returns (bytes: string, c: Cursor)
      requires forall r :: r in listing ==> r.id >= 1
      ensures bytes == Render(line, listing)
      ensures listing == [] ==> c == Cursor(0, None, None, None, 0)
      ensures listing != [] ==>
        && c.tailCreated == Some(listing[|listing| - 1].createdAt)
        && c.tailAttempt == Some(listing[|listing| - 1].attemptId)
        && c.seal == 0
        && exists r :: r in listing && r.id == c.cursorId && c.cursorAttempt == Some(r.attemptId) &&
                       forall x :: x in listing ==> x.id <= r.id
    {
      bytes, c := "", Cursor(0, None, None, None, 0);
      ghost var top := 0;
      for i := 0 to |listing|
        invariant bytes == Render(line, listing[..i])
        invariant i == 0 ==> c == Cursor(0, None, None, None, 0)
        invariant i > 0 ==>
          && c.tailCreated == Some(listing[i - 1].createdAt)
          && c.tailAttempt == Some(listing[i - 1].attemptId)
          && c.seal == 0
          && 0 <= top < i && c.cursorId == listing[top].id && c.cursorAttempt == Some(listing[top].attemptId)
        invariant forall j :: 0 <= j < i ==> listing[j].id <= c.cursorId
      {
        var r := listing[i];
        assert listing[..i + 1][..i] == listing[..i];
        bytes := bytes + line(r);
        if r.id > c.cursorId {
          top := i;
          c := c.(cursorId := r.id, cursorAttempt := Some(r.attemptId));
        }
        c := c.(tailCreated := Some(r.createdAt), tailAttempt := Some(r.attemptId));
      }
      assert listing[..|listing|] == listing;
      if listing != [] {
        assert listing[top] in listing;
      }
    }

    /** The SELECT of `_rebuild_projection` and its rendering: the whole table and its cursor. */
    method RenderTable() returns (bytes: string, c: Cursor)
      requires Valid()
      ensures bytes == Rendered(line, rows) && c == CursorOf(rows, 0)
    {
      TablesAreDistinct(past, used, rows);
      assert Table(rows);
      var listing := OrderBy(rows);
      forall r | r in listing ensures r.id >= 1 {
        OrderByMembers(rows, r);
      }
      bytes, c := RenderRows(listing);
      if listing != [] {
        var r :| r in listing && r.id == c.cursorId && c.cursorAttempt == Some(r.attemptId) &&
                 forall x :: x in listing ==> x.id <= r.id;
        MaxIdIsLast(rows, listing, r);
      }
    }

    /** The end both publishing paths share: the written file must still carry its seal before the
        sidecar for it is published. Points `at` and `at + 1` let others in. */
    method Publish(c: Cursor, ghost table: seq<Row>, env: seq<seq<EnvStep>>, at: nat, syncFails: bool,
                   how: StateWrite, crash: Option<nat>) returns (out: Outcome)
      requires Valid() && table in past && c == CursorOf(table, c.seal) && c.seal < nextSeal
      requires file == Regular(c.seal, Rendered(line, table))
      modifies this
      ensures Valid() && old(rows) <= rows && old(past) <= past && old(outside) <= outside
      ensures out.Projected? ==> sidecar == Some(c) && basis == table
      ensures out.Projected? && (outside == old(outside) || Quiet(At(env, at + 1))) ==> file == old(file)
      ensures crash == None ==> !out.Crashed?
      ensures env == [] ==> rows == old(rows) && outside == old(outside)
      ensures env == [] && crash == None && !syncFails && how.Installed? ==> out.Projected?
    {
      if crash == Some(at) { return Crashed; }
      Interfere(At(env, at));
      if syncFails || !file.Regular? || file.seal != c.seal { return Pending; }
      Interfere(At(env, at + 1));
      if crash == Some(at + 1) { return Crashed; }
      var ok := WriteState(c, table, how);
      out := if ok then Projected else Pending;
    }

    /** `_rebuild_projection` from its SELECT to its sidecar. `seen` is the table it rendered. */
    method Rebuild(env: seq<seq<EnvStep>>, faults: Faults, crash: Option<nat>)
      returns (out: Outcome, ghost seen: seq<Row>)
      requires Valid()
      modifies this
      ensures Valid() && seen == old(rows) <= rows && seen in past && old(past) <= past
      ensures old(outside) <= outside
      ensures out.Projected? ==> sidecar.Some? && basis == seen
      ensures out.Projected? && (outside == old(outside) || QuietSinceCheck(env, FullRebuild)) ==>
        file == Regular(sidecar.value.seal, Rendered(line, seen))
      ensures crash == None ==> !out.Crashed?
      ensures env == [] ==> rows == old(rows) && outside == old(outside)
      ensures faults == NO_FAULTS && env == [] && crash == None ==> out == Projected
    {
      seen := rows;
      ghost var table := rows;
      var bytes, c := RenderTable();
      if faults.renderFails { return Pending, seen; }
      if crash == Some(10) { return Crashed, seen; }
      Interfere(At(env, 10));
      if faults.replaceFails { return Pending, seen; }
      var seal := nextSeal;
      nextSeal := nextSeal + 1;
      file := Regular(seal, bytes);
      assert c.(seal := seal) == CursorOf(table, seal) && table in past;
      out := Publish(c.(seal := seal), table, env, 11, faults.syncFails, faults.rebuildState, crash);
    }

    /** The fast path: seal re-check, one appended line, seal of what was written, new sidecar. */
    method AppendLine(state: Cursor, candidate: Row, env: seq<seq<EnvStep>>, faults: Faults, crash: Option<nat>)
      returns (appended: bool, crashed: bool)
      requires Valid() && sidecar == Some(state) && basis + [candidate] in past
      requires AfterTail(CursorOf(basis, 0), candidate)
      modifies this
      ensures Valid() && old(rows) <= rows && old(past) <= past && old(outside) <= outside
      ensures appended ==> !crashed && sidecar.Some? && basis == old(basis) + [candidate]
      ensures appended && (outside == old(outside) || QuietSinceCheck(env, AppendOne(candidate))) ==>
        file == Regular(sidecar.value.seal, Rendered(line, old(basis) + [candidate]))
      ensures appended && (outside == old(outside) || QuietSinceCheck(env, AppendOne(candidate))) ==>
        old(file).Regular? && file.bytes == old(file).bytes + line(candidate)
      ensures env == [] && crash == None && faults.append.Sound? && faults.appendState.Installed? ==>
        (appended <==> old(file).Regular? && old(file).seal == state.seal)
      ensures faults.append.ShortWrite? && old(SealMatches(state)) ==>
                && !appended && sidecar == old(sidecar) && file.Regular? && file.seal != state.seal
                && file.bytes == old(file).bytes + Cut(line(candidate), faults.append.kept)
      ensures crash == None ==> !crashed
      ensures env == [] ==> rows == old(rows) && outside == old(outside)
    {
      appended, crashed := false, false;
      var faulty := faults.append;
      if faulty.OpenFails? || !file.Regular? || file.seal != state.seal { return; }
      ghost var table := basis + [candidate];
      var text := line(candidate);
      var seal := nextSeal;
      FastPathIsRebuild(past, used, line, basis, candidate, 0, seal);
      nextSeal := nextSeal + 1;
      if faulty.ShortWrite? {
        file := Regular(seal, file.bytes + Cut(text, faulty.kept));
        return;
      }
      file := Regular(seal, file.bytes + text);
      var c := Cursor(candidate.id, Some(candidate.attemptId),
                      Some(candidate.createdAt), Some(candidate.attemptId), seal);
      assert c == CursorOf(table, seal);
      var out := Publish(c, table, env, 4, faulty.SyncFails?, faults.appendState, crash);
      appended, crashed := out.Projected?, out.Crashed?;
    }

    /** `_cursor_matches_authority`, its two SELECTs apart: a surviving cursor row means the table
        still begins with the rendered rows, and commits in between only add to it. */
    method CursorMatches(state: Cursor, env: seq<seq<EnvStep>>) returns (anchored: bool)
      requires Valid() && sidecar == Some(state)
      modifies this
      ensures Valid() && OthersRan()
      ensures anchored ==> basis <= rows
      ensures env == [] ==> (anchored <==> old(Anchored(rows, state)))
      ensures Quiet(At(env, 2)) ==> file == old(file) && outside == old(outside)
      ensures env == [] ==> rows == old(rows) && file == old(file) && outside == old(outside)
    {
      assert Table(basis);
      anchored := if state.cursorId == 0 then rows == [] else CursorAnchor(rows, state);
      if anchored && basis != [] {
        CursorAnchorPinsPrefix(past, used, basis, rows, state.seal);
      }
      Interfere(At(env, 2));
      anchored := anchored && (state.cursorId == 0 || TailAnchor(rows, state));
    }

    /** SELECT ... WHERE id > cursor ORDER BY id LIMIT 2, and the choice it leads to. */
    method PickUnseen(state: Cursor) returns (plan: Plan)
      requires Valid() && sidecar == Some(state) && basis <= rows
      ensures plan.UpToDate? <==> basis == rows
      ensures plan.AppendOne? <==> |rows| == |basis| + 1 && AfterTail(CursorOf(basis, 0), rows[|basis|])
      ensures plan.AppendOne? ==> rows == basis + [plan.candidate]
    {
      CursorHasTail(past, used, basis, state.seal);
      UnseenAfterBasis(past, used, basis, rows, state.seal);
      var unseen := Unseen(rows, state.cursorId);
      if unseen == [] { return UpToDate; }
      if |unseen| == 1 && AfterTail(state, unseen[0]) { return AppendOne(unseen[0]); }
      return FullRebuild;
    }

    /** The seal recorded for the file still names what is there. */
    predicate SealMatches(state: Cursor)
      reads this
    {
      file.Regular? && file.seal == state.seal
    }

    /** What the locked section decides from the sidecar, the file's seal and the unseen rows. */
    method Consult(state: Cursor, env: seq<seq<EnvStep>>) returns (plan: Plan, ghost seen: seq<Row>)
      requires Valid() && sidecar == Some(state)
      modifies this
      ensures Valid() && OthersRan() && seen == rows
      ensures plan.UpToDate? ==> basis == rows && old(SealMatches(state))
      ensures plan.UpToDate? && QuietSinceCheck(env, UpToDate) ==> file == old(file)
      ensures plan.AppendOne? ==> rows == basis + [plan.candidate] && AfterTail(CursorOf(basis, 0), plan.candidate)
      ensures env == [] ==> rows == old(rows) && file == old(file) && outside == old(outside)
      ensures env == [] ==> plan == old(UndisturbedPlan(state))
    {
      UndisturbedChoice(state);
      if !SealMatches(state) { return FullRebuild, rows; }
      Interfere(At(env, 1));
      var anchored := CursorMatches(state, env);
      if !anchored { return FullRebuild, rows; }
      Interfere(At(env, 3));
      plan := PickUnseen(state);
      seen := rows;
    }

    /** What a call that nobody disturbs does: nothing when the certified rows are all there are, one line
        when exactly one row has been added after them and none of them is later than it, and the rebuild
        otherwise.
        The first row of a lesson is never appended: an empty rendering anchors only an empty table. */
    ghost function UndisturbedPlan(state: Cursor): Plan
      reads this
    {
      if !SealMatches(state) then FullRebuild
      else if basis == rows then UpToDate
      else if basis != [] && |rows| == |basis| + 1 && basis <= rows && Latest(basis, rows[|basis|])
      then AppendOne(rows[|basis|])
      else FullRebuild
    }

    /** The anchors hold exactly when the certified rows begin the table, and the key test passes exactly
        when none of them is later than the next row. */
    lemma UndisturbedChoice(state: Cursor)
      requires Valid() && sidecar == Some(state)
      ensures Anchored(rows, state) <==> basis <= rows && (basis == [] ==> rows == [])
      ensures basis != [] && |rows| > |basis| ==>
                (AfterTail(CursorOf(basis, 0), rows[|basis|]) <==> Latest(basis, rows[|basis|]))
    {
      AnchorsPinHistory(past, used, basis, rows, state.seal);
      if basis != [] && |rows| > |basis| { KeyTestIsLatest(rows[|basis|]); }
    }

    /** The key test of the fast path, in the columns: no certified row sorts after the new one. */
    lemma KeyTestIsLatest(candidate: Row)
      requires Valid() && sidecar.Some? && basis != []
      ensures AfterTail(CursorOf(basis, 0), candidate) <==> Latest(basis, candidate)
    {
      assert Table(basis);
      TablesAreDistinct(past, used, basis);
      AfterTailIsLatest(basis, candidate);
    }

    /** So a row stamped later than all certified ones is appended, and one stamped earlier than some of them
        is not. */
    lemma NewestRowIsAppended(state: Cursor, r: Row)
      requires Valid() && sidecar == Some(state) && SealMatches(state) && basis != [] && rows == basis + [r]
      ensures (forall x :: x in basis ==> x.createdAt < r.createdAt) ==> UndisturbedPlan(state) == AppendOne(r)
      ensures (exists x :: x in basis && x.createdAt > r.createdAt) ==> UndisturbedPlan(state) == FullRebuild
    {
      assert rows[|basis|] == r;
    }

    /** The way out without a rebuild: nothing to do, or one appended line; FullRebuild means neither. */
    method TryFastPath(state: Cursor, env: seq<seq<EnvStep>>, faults: Faults, crash: Option<nat>)
      returns (how: Plan, crashed: bool, ghost seen: seq<Row>)
      requires Valid() && sidecar == Some(state)
      modifies this
      ensures Valid() && old(rows) <= seen <= rows && seen in past && old(past) <= past
      ensures old(outside) <= outside
      ensures crash == None ==> !crashed
      ensures !how.FullRebuild? && !crashed ==> sidecar.Some? && basis == seen
      ensures !how.FullRebuild? && !crashed && (outside == old(outside) || QuietSinceCheck(env, how)) ==>
        file == Regular(sidecar.value.seal, Rendered(line, seen))
      ensures env == [] ==> rows == old(rows) && outside == old(outside)
      ensures env == [] && crash == None && faults.append.Sound? && faults.appendState.Installed? ==>
        how == old(UndisturbedPlan(state))
    {
      crashed := false;
      how, seen := Consult(state, env);
      if how.AppendOne? {
        var appended;
        appended, crashed := AppendLine(state, how.candidate, env, faults, crash);
        if !appended && !crashed { how := FullRebuild; }
      }
    }

    /** `_project_attempt_locked`: the cursor and its anchors choose between nothing to do, one
        appended line, and the full rebuild; `how` is the way taken. */
    method ProjectLocked(env: seq<seq<EnvStep>>, faults: Faults, crash: Option<nat>)
      returns (out: Outcome, ghost how: Plan, ghost seen: seq<Row>)
      requires Valid()
      modifies this
      ensures Valid() && old(rows) <= seen <= rows && seen in past
      ensures out.Projected? ==> sidecar.Some? && basis == seen
      ensures out.Projected? && (outside == old(outside) || QuietSinceCheck(env, how)) ==>
        file == Regular(sidecar.value.seal, Rendered(line, seen))
      ensures out.Crashed? ==> crash.Some?
      ensures env == [] ==> rows == old(rows) && outside == old(outside)
      ensures faults == NO_FAULTS && env == [] && crash == None ==>
        out.Projected? && how == if old(sidecar).Some? then old(UndisturbedPlan(sidecar.value)) else FullRebuild
    {
      how := FullRebuild;
      var state := if faults.unreadable then None else sidecar;
      Interfere(At(env, 0));
      if state.Some? {
        var way, crashed;
        way, crashed, seen := TryFastPath(state.value, env, faults, crash);
        how := way;
        if crashed { return Crashed, how, seen; }
        if !way.FullRebuild? { return Projected, how, seen; }
      }
      out, seen := Rebuild(env, faults, crash);
    }

    /** `_project_attempt`. Every run of other writers, faults and crash points is an argument.
        On Projected, the file is the full rebuild of a table of the database that was current during the
        call, whatever others did to the file before the last check of its seal. */
    method ProjectAttempt(env: seq<seq<EnvStep>>, faults: Faults, crash: Option<nat>)
      returns (out: Outcome, ghost how: Plan, ghost seen: seq<Row>)
      requires Valid()
      modifies this
      ensures Valid() && old(rows) <= seen <= rows && seen in past
      ensures rows == old(rows) ==> seen == rows
      ensures faults.busy ==> out == Pending && rows == old(rows) && file == old(file) && sidecar == old(sidecar)
      ensures out.Crashed? ==> crash.Some?
      ensures out.Projected? ==> sidecar.Some? && basis == seen
      ensures out.Projected? && (outside == old(outside) || QuietSinceCheck(env, how)) ==>
        file == Regular(sidecar.value.seal, Rendered(line, seen))
      ensures faults == NO_FAULTS && env == [] && crash == None ==>
        && out.Projected? && rows == old(rows) && outside == old(outside)
        && how == if old(sidecar).Some? then old(UndisturbedPlan(sidecar.value)) else FullRebuild
    {
      if faults.busy { return Pending, FullRebuild, rows; }
      out, how, seen := ProjectLocked(env, faults, crash);
      assert rows == old(rows) ==> |seen| == |rows|;
    }

    /** `reconcile_projection`: the rebuild alone, under the same lock. */
    method Reconcile(env: seq<seq<EnvStep>>, faults: Faults, crash: Option<nat>)
      returns (out: Outcome, ghost seen: seq<Row>)
      requires Valid()
      modifies this
      ensures Valid() && seen == old(rows) <= rows
      ensures faults.busy ==> out == Pending && rows == old(rows) && file == old(file) && sidecar == old(sidecar)
      ensures out.Projected? ==> sidecar.Some? && basis == seen
      ensures out.Projected? && (outside == old(outside) || QuietSinceCheck(env, FullRebuild)) ==>
        file == Regular(sidecar.value.seal, Rendered(line, seen))
      ensures faults == NO_FAULTS && env == [] && crash == None ==> out.Projected? && rows == old(rows)
    {
      if faults.busy { return Pending, rows; }
      out, seen := Rebuild(env, faults, crash);
    }
  }
}

/** Past values of the attempts table, and what the durable cursor's anchors say about them. */
module AttemptHistory {
  import opened Options
  import opened AttemptOrder

  /** Ids grow along the table (AUTOINCREMENT) and start at 1. */
  ghost predicate Table(t: seq<Row>) {
    && (forall i :: 0 <= i < |t| ==> t[i].id >= 1)
    && forall i, j :: 0 <= i < j < |t| ==> t[i].id < t[j].id
  }

  /** A row the two tables share stands at the same place, after the same rows. */
  ghost predicate SharedPrefix(t: seq<Row>, u: seq<Row>) {
    forall i, j :: 0 <= i < |t| && 0 <= j < |u| && t[i].attemptId == u[j].attemptId ==>
      i == j && t[..i + 1] == u[..j + 1]
  }

  /** Every attempt uuid was minted once, so a row pins down the whole table before it. */
  ghost predicate PrefixDetermined(past: set<seq<Row>>) {
    forall t, u :: t in past && u in past ==> SharedPrefix(t, u)
  }

  /** The tables the database ever held, across restores to any of them. */
  ghost predicate History(past: set<seq<Row>>, used: set<nat>) {
    && PrefixDetermined(past)
    && (forall t :: t in past ==> Table(t))
    && forall t: seq<Row>, i: int :: t in past && 0 <= i < |t| ==> t[i].attemptId in used
  }

  lemma TablesAreDistinct(past: set<seq<Row>>, used: set<nat>, t: seq<Row>)
    requires History(past, used) && t in past
    ensures DistinctAttempts(t)
  {
    assert SharedPrefix(t, t);
  }

  /** Committing one row under a fresh uuid keeps the history's shape. */
  lemma CommitKeepsHistory(past: set<seq<Row>>, used: set<nat>, rows: seq<Row>, r: Row)
    requires History(past, used) && rows in past
    requires r.attemptId !in used && r.id >= 1
    requires rows == [] || rows[|rows| - 1].id < r.id
    ensures History(past + {rows + [r]}, used + {r.attemptId})
  {
    var past' := past + {rows + [r]};
    assert Table(rows);
    forall t, u | t in past' && u in past' ensures SharedPrefix(t, u) {
      CommittedRowsPin(past, used, rows, r, t, u);
    }
  }

  lemma CommittedRowsPin(past: set<seq<Row>>, used: set<nat>, rows: seq<Row>, r: Row, t: seq<Row>, u: seq<Row>)
    requires History(past, used) && rows in past && r.attemptId !in used
    requires t in past + {rows + [r]} && u in past + {rows + [r]}
    ensures SharedPrefix(t, u)
  {
    var t0 := if t in past then t else rows;
    var u0 := if u in past then u else rows;
    assert SharedPrefix(t0, u0);
    forall i, j | 0 <= i < |t| && 0 <= j < |u| && t[i].attemptId == u[j].attemptId
      ensures i == j && t[..i + 1] == u[..j + 1]
    {
      if i < |t0| && j < |u0| {
        assert t0[i] == t[i] && u0[j] == u[j];
        assert t[..i + 1] == t0[..i + 1] && u[..j + 1] == u0[..j + 1];
      }
    }
  }

  /** The private sidecar: the last row seen, the last row in file order, and the file's seal. */
  datatype Cursor = Cursor(
    cursorId: nat, cursorAttempt: Option<nat>,
    tailCreated: Option<int>, tailAttempt: Option<nat>, seal: nat)

  /** The sidecar a rendering of `rows` publishes. */
  function CursorOf(rows: seq<Row>, seal: nat): Cursor {
    if rows == [] then Cursor(0, None, None, None, seal)
    else
      var last := rows[|rows| - 1];
      var tail := OrderBy(rows)[|rows| - 1];
      Cursor(last.id, Some(last.attemptId), Some(tail.createdAt), Some(tail.attemptId), seal)
  }

  /** SELECT 1 ... WHERE id = ? AND attempt_id = ?. */
  predicate CursorAnchor(rows: seq<Row>, c: Cursor) {
    exists r :: r in rows && r.id == c.cursorId && Some(r.attemptId) == c.cursorAttempt
  }

  /** SELECT 1 ... WHERE created_at = ? AND attempt_id = ?. */
  predicate TailAnchor(rows: seq<Row>, c: Cursor) {
    exists r :: r in rows && Some(r.createdAt) == c.tailCreated && Some(r.attemptId) == c.tailAttempt
  }

  predicate Anchored(rows: seq<Row>, c: Cursor) {
    if c.cursorId == 0 then rows == [] else CursorAnchor(rows, c) && TailAnchor(rows, c)
  }

  /** The cursor anchor alone pins the table: if it survives, the rendered rows are a prefix. */
  lemma CursorAnchorPinsPrefix(past: set<seq<Row>>, used: set<nat>, basis: seq<Row>, rows: seq<Row>, seal: nat)
    requires History(past, used) && basis in past && rows in past && basis != []
    requires CursorAnchor(rows, CursorOf(basis, seal))
    ensures basis <= rows
  {
    var n := |basis|;
    var r :| r in rows && r.id == basis[n - 1].id && Some(r.attemptId) == Some(basis[n - 1].attemptId);
    var k :| 0 <= k < |rows| && rows[k] == r;
    assert SharedPrefix(rows, basis) && rows[k].attemptId == basis[n - 1].attemptId;
    assert rows[..k + 1] == basis[..n - 1 + 1] == basis;
  }

  /** Restored authority: a sidecar's anchors hold in the current table exactly when the history
      the file was rendered from is still the beginning of the current one. */
  lemma AnchorsPinHistory(past: set<seq<Row>>, used: set<nat>, basis: seq<Row>, rows: seq<Row>, seal: nat)
    requires History(past, used) && basis in past && rows in past
    ensures Anchored(rows, CursorOf(basis, seal)) <==> basis <= rows && (basis == [] ==> rows == [])
  {
    if basis != [] {
      assert Table(basis);
      var n := |basis|;
      if CursorAnchor(rows, CursorOf(basis, seal)) {
        CursorAnchorPinsPrefix(past, used, basis, rows, seal);
      }
      if basis <= rows {
        assert basis[n - 1] == rows[n - 1] && rows[n - 1] in rows;
        var tail := OrderBy(basis)[n - 1];
        TablesAreDistinct(past, used, basis);
        OrderByMembers(basis, tail);
        assert tail in rows;
      }
    }
  }

  /** SELECT * ... WHERE id > ? ORDER BY id. */
  function Unseen(rows: seq<Row>, cursorId: nat): seq<Row> {
    if rows == [] then []
    else (if rows[0].id > cursorId then [rows[0]] else []) + Unseen(rows[1..], cursorId)
  }

  /** With the rendered rows a prefix, the rows past the cursor are exactly the rest. */
  lemma {:induction false} UnseenIsRest(rows: seq<Row>, k: nat, cursorId: nat)
    requires k <= |rows|
    requires forall i :: 0 <= i < |rows| ==> (rows[i].id > cursorId <==> i >= k)
    ensures Unseen(rows, cursorId) == rows[k..]
  {
    if rows != [] {
      var rest := rows[1..];
      assert forall i :: 0 <= i < |rest| ==> rest[i] == rows[i + 1];
      if k == 0 {
        UnseenIsRest(rest, 0, cursorId);
        assert rows[0..] == [rows[0]] + rest;
      } else {
        UnseenIsRest(rest, k - 1, cursorId);
        assert rows[k..] == rest[k - 1..];
      }
    }
  }

  lemma UnseenAfterBasis(past: set<seq<Row>>, used: set<nat>, basis: seq<Row>, rows: seq<Row>, seal: nat)
    requires History(past, used) && rows in past && basis <= rows
    ensures rows == basis + Unseen(rows, CursorOf(basis, seal).cursorId)
  {
    var c := CursorOf(basis, seal).cursorId;
    var n := |basis|;
    assert Table(rows);
    if n > 0 {
      assert basis[n - 1] == rows[n - 1];
      assert forall i :: n <= i < |rows| ==> rows[n - 1].id < rows[i].id;
      assert forall i :: 0 <= i < n - 1 ==> rows[i].id < rows[n - 1].id;
    }
    UnseenIsRest(rows, n, c);
  }

  /** The fast path's key test: the candidate sorts after the recorded tail. */
  predicate AfterTail(c: Cursor, candidate: Row)
    requires c.cursorId != 0 ==> c.tailAttempt.Some? && c.tailCreated.Some?
  {
    c.cursorId == 0 || KeyLess(Row(0, c.tailAttempt.value, c.tailCreated.value, ""), candidate)
  }

  /** When the key test passes, the appended text and the advanced cursor are the rebuild's own. */
  lemma FastPathIsRebuild(past: set<seq<Row>>, used: set<nat>, line: Row -> string,
                          basis: seq<Row>, candidate: Row, seal: nat, seal': nat)
    requires History(past, used) && basis in past && basis + [candidate] in past
    requires AfterTail(CursorOf(basis, seal), candidate)
    ensures Rendered(line, basis + [candidate]) == Rendered(line, basis) + line(candidate)
    ensures CursorOf(basis + [candidate], seal') ==
      Cursor(candidate.id, Some(candidate.attemptId), Some(candidate.createdAt), Some(candidate.attemptId), seal')
  {
    assert Table(basis);
    TablesAreDistinct(past, used, basis + [candidate]);
    AppendIsRebuild(line, basis, candidate);
    AppendIsReorder(basis, candidate);
  }

  lemma CursorHasTail(past: set<seq<Row>>, used: set<nat>, basis: seq<Row>, seal: nat)
    requires History(past, used) && basis in past
    ensures CursorOf(basis, seal).cursorId == 0 <==> basis == []
  {
    assert Table(basis);
  }
}

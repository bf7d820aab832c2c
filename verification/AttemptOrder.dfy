/** Rows of `lesson_attempts`, the order the projection file keeps them in, and its text. */
module AttemptOrder {

  /** One committed row of the lesson. `attemptId` is a uuid, `createdAt` a fixed-width UTC stamp. */
  datatype Row = Row(id: nat, attemptId: nat, createdAt: int, body: string)

  predicate KeyLess(a: Row, b: Row) {
    a.createdAt < b.createdAt || (a.createdAt == b.createdAt && a.attemptId < b.attemptId)
  }

  ghost predicate DistinctAttempts(rows: seq<Row>) {
    forall i, j :: 0 <= i < j < |rows| ==> rows[i].attemptId != rows[j].attemptId
  }

  ghost predicate Sorted(rows: seq<Row>) {
    forall i, j :: 0 <= i < j < |rows| ==> KeyLess(rows[i], rows[j])
  }

  function Insert(sorted: seq<Row>, r: Row): (out: seq<Row>)
    ensures |out| == |sorted| + 1
  {
    if sorted == [] || KeyLess(r, sorted[0]) then [r] + sorted
    else [sorted[0]] + Insert(sorted[1..], r)
  }

  /** SELECT ... ORDER BY created_at, attempt_id. */
  function OrderBy(rows: seq<Row>): (out: seq<Row>)
    ensures |out| == |rows|
  {
    if rows == [] then [] else Insert(OrderBy(rows[..|rows| - 1]), rows[|rows| - 1])
  }

  lemma {:induction false} InsertSorts(sorted: seq<Row>, r: Row)
    requires Sorted(sorted)
    requires forall x :: x in sorted ==> x.attemptId != r.attemptId
    ensures Sorted(Insert(sorted, r))
    ensures multiset(Insert(sorted, r)) == multiset(sorted) + multiset{r}
  {
    if sorted == [] {
    } else if KeyLess(r, sorted[0]) {
      assert forall j :: 0 < j < |sorted| ==> KeyLess(sorted[0], sorted[j]);
    } else {
      var tail := Insert(sorted[1..], r);
      InsertSorts(sorted[1..], r);
      assert sorted == [sorted[0]] + sorted[1..];
      forall x | x in tail ensures KeyLess(sorted[0], x) {
        assert x in multiset(tail);
        assert x in multiset(sorted[1..]) + multiset{r};
        if x in sorted[1..] {
          var j :| 0 <= j < |sorted[1..]| && sorted[1..][j] == x;
          assert x == sorted[j + 1];
        } else {
          assert x == r;
          assert sorted[0] in sorted;
        }
      }
    }
  }

  /** The columns of a table are as unique in a prefix, and the next row's is new to it. */
  lemma PrefixDistinct(rows: seq<Row>, r: Row)
    requires DistinctAttempts(rows + [r])
    ensures DistinctAttempts(rows)
    ensures forall x :: x in rows ==> x.attemptId != r.attemptId
  {
    var all := rows + [r];
    assert forall i :: 0 <= i < |rows| ==> all[i] == rows[i];
    forall x | x in rows ensures x.attemptId != r.attemptId {
      var i :| 0 <= i < |rows| && rows[i] == x;
      assert all[i].attemptId != all[|rows|].attemptId;
    }
  }

  lemma SameMembers(a: seq<Row>, b: seq<Row>)
    requires multiset(a) == multiset(b)
    ensures forall x :: x in a <==> x in b
  {
    forall x ensures x in a <==> x in b {
      assert x in a <==> x in multiset(a);
    }
  }

  /** The ordered listing is the sorted permutation of the rows. */
  lemma {:induction false} OrderBySorts(rows: seq<Row>)
    requires DistinctAttempts(rows)
    ensures Sorted(OrderBy(rows))
    ensures multiset(OrderBy(rows)) == multiset(rows)
  {
    if rows != [] {
      var front, last := rows[..|rows| - 1], rows[|rows| - 1];
      OrderBySorts(front);
      assert rows == front + [last];
      PrefixDistinct(front, last);
      SameMembers(OrderBy(front), front);
      InsertSorts(OrderBy(front), last);
    }
  }

  /** Inserting a row puts it last exactly when it sorts after the current tail. */
  lemma {:induction false} InsertLast(sorted: seq<Row>, r: Row)
    requires Sorted(sorted)
    requires forall x :: x in sorted ==> x.attemptId != r.attemptId
    ensures Insert(sorted, r) == sorted + [r] <==> sorted == [] || KeyLess(sorted[|sorted| - 1], r)
  {
    if sorted != [] {
      var n := |sorted|;
      assert sorted[0] in sorted && sorted[n - 1] in sorted;
      assert n > 1 ==> KeyLess(sorted[0], sorted[n - 1]);
      if KeyLess(r, sorted[0]) {
        assert Insert(sorted, r)[0] == r && (sorted + [r])[0] == sorted[0];
      } else {
        var rest := sorted[1..];
        InsertLast(rest, r);
        assert (sorted + [r])[1..] == rest + [r];
        assert Insert(sorted, r)[1..] == Insert(rest, r);
        assert sorted + [r] == [sorted[0]] + (rest + [r]);
      }
    }
  }

  /** In the columns themselves: the listing runs from the earliest stamp to the latest, and by uuid where
      stamps are equal. */
  lemma OrderByAscends(rows: seq<Row>, i: nat, j: nat)
    requires DistinctAttempts(rows) && i < j < |rows|
    ensures OrderBy(rows)[i].createdAt <= OrderBy(rows)[j].createdAt
    ensures OrderBy(rows)[i].createdAt == OrderBy(rows)[j].createdAt ==>
              OrderBy(rows)[i].attemptId < OrderBy(rows)[j].attemptId
  {
    OrderBySorts(rows);
    assert KeyLess(OrderBy(rows)[i], OrderBy(rows)[j]);
  }

  /** Ordering keeps exactly the rows it was given. */
  lemma OrderByMembers(rows: seq<Row>, x: Row)
    requires DistinctAttempts(rows)
    ensures x in OrderBy(rows) <==> x in rows
  {
    OrderBySorts(rows);
    assert x in OrderBy(rows) <==> x in multiset(OrderBy(rows));
    assert x in rows <==> x in multiset(rows);
  }

  /** The one-row fast path and the full rebuild order the rows alike exactly when the new row
      sorts after the recorded tail. */
  lemma AppendIsReorder(rows: seq<Row>, r: Row)
    requires DistinctAttempts(rows + [r])
    ensures OrderBy(rows + [r]) == OrderBy(rows) + [r] <==>
            rows == [] || KeyLess(OrderBy(rows)[|rows| - 1], r)
  {
    PrefixDistinct(rows, r);
    OrderBySorts(rows);
    forall x | x in OrderBy(rows) ensures x.attemptId != r.attemptId {
      OrderByMembers(rows, x);
    }
    InsertLast(OrderBy(rows), r);
    assert (rows + [r])[..|rows|] == rows;
  }

  /** No row was stamped later than r, and those stamped at the same instant have smaller uuids. */
  ghost predicate Latest(rows: seq<Row>, r: Row) {
    forall x :: x in rows ==> x.createdAt < r.createdAt || (x.createdAt == r.createdAt && x.attemptId < r.attemptId)
  }

  lemma LastIsGreatest(sorted: seq<Row>, x: Row)
    requires Sorted(sorted) && x in sorted
    ensures x == sorted[|sorted| - 1] || KeyLess(x, sorted[|sorted| - 1])
  {
  }

  /** Sorting after the recorded tail is sorting after every row. */
  lemma AfterTailIsLatest(rows: seq<Row>, r: Row)
    requires DistinctAttempts(rows) && rows != []
    ensures KeyLess(OrderBy(rows)[|rows| - 1], r) <==> Latest(rows, r)
  {
    OrderBySorts(rows);
    var tail := OrderBy(rows)[|rows| - 1];
    OrderByMembers(rows, tail);
    forall x | x in rows ensures x == tail || KeyLess(x, tail) {
      OrderByMembers(rows, x);
      LastIsGreatest(OrderBy(rows), x);
    }
  }

  /** Two sorted listings of the same rows start with the same row. */
  lemma SameHead(a: seq<Row>, b: seq<Row>)
    requires a != [] && b != [] && Sorted(a) && Sorted(b) && multiset(a) == multiset(b)
    ensures a[0] == b[0]
  {
    assert a[0] in multiset(b) && b[0] in multiset(a);
    FirstIsLeast(a, b[0]);
    FirstIsLeast(b, a[0]);
  }

  lemma FirstIsLeast(sorted: seq<Row>, x: Row)
    requires Sorted(sorted) && x in sorted
    ensures x == sorted[0] || KeyLess(sorted[0], x)
  {
  }

  lemma TailMultiset(a: seq<Row>)
    requires a != []
    ensures multiset(a[1..]) == multiset(a) - multiset{a[0]}
  {
    assert a == [a[0]] + a[1..];
  }

  /** Only one sequence is a sorted permutation of the rows: the file's content is determined. */
  lemma {:induction false} SortedIsUnique(a: seq<Row>, b: seq<Row>)
    requires Sorted(a) && Sorted(b) && multiset(a) == multiset(b)
    ensures a == b
  {
    assert |a| == |multiset(a)| == |multiset(b)| == |b|;
    if a != [] {
      SameHead(a, b);
      TailMultiset(a);
      TailMultiset(b);
      assert Sorted(a[1..]) && Sorted(b[1..]);
      SortedIsUnique(a[1..], b[1..]);
      assert a == [a[0]] + a[1..] == [b[0]] + b[1..] == b;
    }
  }

  /** The text of rows, one line after the other. */
  function Render(line: Row -> string, rows: seq<Row>): string {
    if rows == [] then "" else Render(line, rows[..|rows| - 1]) + line(rows[|rows| - 1])
  }

  /** What the projection file has to hold for a table. */
  function Rendered(line: Row -> string, rows: seq<Row>): string {
    Render(line, OrderBy(rows))
  }

  /** Any chronological listing of the rows has the one right text. */
  lemma RenderedIsChronological(line: Row -> string, rows: seq<Row>, listing: seq<Row>)
    requires DistinctAttempts(rows) && multiset(listing) == multiset(rows)
    requires forall i, j :: 0 <= i < j < |listing| ==>
               (listing[i].createdAt < listing[j].createdAt
                || (listing[i].createdAt == listing[j].createdAt && listing[i].attemptId < listing[j].attemptId))
    ensures Rendered(line, rows) == Render(line, listing)
  {
    OrderBySorts(rows);
    SortedIsUnique(listing, OrderBy(rows));
  }

  /** Appending one line is the full rebuild whenever the new row sorts after the tail. */
  lemma AppendIsRebuild(line: Row -> string, rows: seq<Row>, r: Row)
    requires DistinctAttempts(rows + [r])
    requires rows == [] || KeyLess(OrderBy(rows)[|rows| - 1], r)
    ensures Rendered(line, rows + [r]) == Rendered(line, rows) + line(r)
  {
    AppendIsReorder(rows, r);
    assert (OrderBy(rows) + [r])[..|rows|] == OrderBy(rows);
  }
}

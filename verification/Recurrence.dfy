/** The recurrence engine: which days a series occurs on, window expansion, skip and restore. */
module Recurrence {
  import opened Options

  /** Days are proleptic ordinals (0001-01-01 is 1), the largest being 9999-12-31. */
  const MAX_DAY := 3652059

  datatype Freq = Once | Daily | Weekly

  /** A calendar_events row; a weekly mask has one flag per weekday from Monday. */
  datatype Series = Series(
    archived: bool, start: int, end: Option<int>, freq: Freq, interval: int,
    mask: seq<bool>, exdates: set<int>, allDay: bool, startTime: Option<nat>)

  /** The schema's own check on the interval. */
  predicate ValidSeries(s: Series) {
    s.interval >= 1
  }

  /** date.weekday(): Monday is 0. Ordinal 1 was a Monday. */
  function Weekday(d: int): (w: int)
    ensures 0 <= w < 7
  {
    (d + 6) % 7
  }

  function Monday(d: int): int {
    d - Weekday(d)
  }

  /** `_occurs`, rejects first. */
  predicate Occurs(s: Series, d: int)
    requires ValidSeries(s)
  {
    if d < s.start || (s.end.Some? && d > s.end.value) then false
    else
      var ok :=
        match s.freq
        case Once => d == s.start
        case Daily => (d - s.start) % s.interval == 0
        case Weekly => |s.mask| == 7 && s.mask[Weekday(d)] && (Monday(d) - Monday(s.start)) / 7 % s.interval == 0;
      ok && d !in s.exdates
  }

  /** What the weekly arm means: whole weeks between the Mondays, a multiple of the interval, and the
      same again after `interval` weeks. */
  lemma WeeklyRepeats(s: Series, d: int)
    requires ValidSeries(s) && s.freq.Weekly? && d >= s.start
    requires s.end == None && d !in s.exdates && d + 7 * s.interval !in s.exdates
    ensures Occurs(s, d) <==> Occurs(s, d + 7 * s.interval)
  {
    var next := d + 7 * s.interval;
    assert Weekday(next) == Weekday(d) by {
      assert (next + 6) % 7 == (d + 6 + 7 * s.interval) % 7;
      AddMultiple(d + 6, s.interval, 7);
    }
    var weeks := (Monday(d) - Monday(s.start)) / 7;
    MondaysAreWeeksApart(d, s.start);
    assert Monday(next) - Monday(s.start) == 7 * (weeks + s.interval);
    AddMultiple(weeks, 1, s.interval);
  }

  lemma AddMultiple(a: int, k: int, m: int)
    requires m > 0
    ensures (a + m * k) % m == a % m
  {
    var q := a / m;
    assert a + m * k == m * (q + k) + a % m;
    DivModUnique(a + m * k, m, q + k, a % m);
  }

  lemma DivModUnique(x: int, m: int, q: int, r: int)
    requires m > 0 && x == m * q + r && 0 <= r < m
    ensures x % m == r && x / m == q
  {
    var d := x / m - q;
    assert m * d == r - x % m;
    if d >= 1 {
      Scale(m, 1, d);
      assert false;
    } else if d <= -1 {
      Scale(m, d, -1);
      assert false;
    }
  }

  lemma Scale(m: int, a: int, b: int)
    requires m > 0 && a <= b
    ensures m * a <= m * b
  {
  }

  lemma MondaysAreWeeksApart(a: int, b: int)
    ensures Monday(a) - Monday(b) == 7 * ((Monday(a) - Monday(b)) / 7)
  {
  }

  /** The rule covers the day and the day is not skipped. */
  ghost predicate InSpan(s: Series, d: int) {
    s.start <= d && (s.end.Some? ==> d <= s.end.value) && d !in s.exdates
  }

  /** A daily series falls on its start and on every interval-th day after it. */
  lemma DailyDays(s: Series, d: int)
    requires ValidSeries(s) && s.freq.Daily?
    ensures Occurs(s, d) <==> InSpan(s, d) && exists k: nat :: d == s.start + k * s.interval
  {
    if Occurs(s, d) {
      var k := (d - s.start) / s.interval;
      DivModUnique(d - s.start, s.interval, k, 0);
      assert d == s.start + k * s.interval;
    }
    forall k: nat | d == s.start + k * s.interval ensures (d - s.start) % s.interval == 0 {
      DivModUnique(d - s.start, s.interval, k, 0);
    }
  }

  /** A one-off falls on its start alone. */
  lemma OnceDays(s: Series, d: int)
    requires ValidSeries(s) && s.freq.Once?
    ensures Occurs(s, d) <==> InSpan(s, d) && d == s.start
  {
  }

  /** Weekdays run from Monday on; day 1 was a Monday. */
  lemma WeekdaysRun(d: int)
    ensures Weekday(1) == 0 && Weekday(d + 1) == (if Weekday(d) == 6 then 0 else Weekday(d) + 1)
    ensures Monday(d) <= d < Monday(d) + 7 && d == Monday(d) + Weekday(d) && Weekday(Monday(d)) == 0
  {
  }

  /** A weekly series falls on the flagged weekdays of every interval-th week, counted from the week it
      starts in. */
  lemma WeeklyDays(s: Series, d: int)
    requires ValidSeries(s) && s.freq.Weekly?
    ensures Occurs(s, d) <==>
              && InSpan(s, d) && |s.mask| == 7 && s.mask[Weekday(d)]
              && exists k: nat :: Monday(d) == Monday(s.start) + 7 * (k * s.interval)
  {
    var weeks := (Monday(d) - Monday(s.start)) / 7;
    MondaysAreWeeksApart(d, s.start);
    if Occurs(s, d) {
      var k := weeks / s.interval;
      DivModUnique(weeks, s.interval, k, 0);
      assert Monday(d) == Monday(s.start) + 7 * (k * s.interval);
    }
    forall k: nat | Monday(d) == Monday(s.start) + 7 * (k * s.interval) ensures weeks % s.interval == 0 {
      assert weeks == s.interval * k;
      DivModUnique(weeks, s.interval, k, 0);
    }
  }

  type Table = map<nat, Series>

  ghost predicate ValidTable(t: Table) {
    forall id :: id in t ==> ValidSeries(t[id])
  }

  /** One concrete occurrence, with what the sort key reads from its row. */
  datatype Occurrence = Occurrence(day: int, allDay: bool, startTime: Option<nat>, id: nat)

  function OccurrenceOf(t: Table, id: nat, d: int): Occurrence
    requires id in t
  {
    Occurrence(d, t[id].allDay, t[id].startTime, id)
  }

  /** The key's start_time or "": no time sorts before every time. */
  function TimeKey(o: Occurrence): int {
    if o.startTime.Some? then o.startTime.value else -1
  }

  /** (date, not all_day, start_time or "", event_id). */
  predicate Before(a: Occurrence, b: Occurrence) {
    if a.day != b.day then a.day < b.day
    else if a.allDay != b.allDay then a.allDay
    else if TimeKey(a) != TimeKey(b) then TimeKey(a) < TimeKey(b)
    else a.id < b.id
  }

  ghost predicate Ascending(os: seq<Occurrence>) {
    forall i, j :: 0 <= i < j < |os| ==> Before(os[i], os[j])
  }

  /** The order in its fields: by day; on a day the all-day ones first; of those alike first the ones without
      a time, then by time; and by event where all is equal. */
  ghost predicate Chronological(os: seq<Occurrence>) {
    && (forall i, j :: 0 <= i < j < |os| ==> os[i].day <= os[j].day)
    && (forall i, j :: 0 <= i < j < |os| && os[i].day == os[j].day ==> (os[j].allDay ==> os[i].allDay))
    && forall i, j :: 0 <= i < j < |os| && os[i].day == os[j].day && os[i].allDay == os[j].allDay ==>
         && (os[j].startTime.None? ==> os[i].startTime.None?)
         && (os[i].startTime.Some? && os[j].startTime.Some? ==> os[i].startTime.value <= os[j].startTime.value)
         && (os[i].startTime == os[j].startTime ==> os[i].id < os[j].id)
  }

  lemma AscendingIsChronological(os: seq<Occurrence>)
    requires Ascending(os)
    ensures Chronological(os)
  {
    assert forall i, j :: 0 <= i < j < |os| ==> Before(os[i], os[j]);
  }

  /** o is an occurrence of a live series inside the window. */
  ghost predicate Shown(t: Table, from: int, to: int, o: Occurrence)
    requires ValidTable(t)
  {
    && o.id in t && !t[o.id].archived
    && from <= o.day <= to && Occurs(t[o.id], o.day)
    && o == OccurrenceOf(t, o.id, o.day)
  }

  /** What an expansion has to be: every shown occurrence once, strictly in key order. */
  ghost predicate Expansion(t: Table, from: int, to: int, os: seq<Occurrence>)
    requires ValidTable(t)
  {
    && Ascending(os)
    && forall o :: o in os <==> Shown(t, from, to, o)
  }

  /** That determines it. */
  lemma {:induction false} AscendingIsUnique(a: seq<Occurrence>, b: seq<Occurrence>)
    requires Ascending(a) && Ascending(b) && forall o :: o in a <==> o in b
    ensures a == b
  {
    assert |a| > 0 ==> a[0] in a;
    assert |b| > 0 ==> b[0] in b;
    if a != [] {
      SameFirst(a, b);
      forall o ensures o in a[1..] <==> o in b[1..] {
        TailMembers(a, o);
        TailMembers(b, o);
      }
      AscendingIsUnique(a[1..], b[1..]);
      assert a == [a[0]] + a[1..] && b == [b[0]] + b[1..];
    }
  }

  lemma SameFirst(a: seq<Occurrence>, b: seq<Occurrence>)
    requires a != [] && b != [] && Ascending(a) && Ascending(b) && a[0] in b && b[0] in a
    ensures a[0] == b[0]
  {
    var i :| 0 <= i < |b| && b[i] == a[0];
    var j :| 0 <= j < |a| && a[j] == b[0];
    assert i > 0 ==> Before(b[0], b[i]);
    assert j > 0 ==> Before(a[0], a[j]);
  }

  lemma TailMembers(a: seq<Occurrence>, o: Occurrence)
    requires a != [] && Ascending(a)
    ensures o in a[1..] <==> o in a && o != a[0]
  {
    assert a == [a[0]] + a[1..];
    if o in a[1..] {
      var i :| 0 <= i < |a[1..]| && a[1..][i] == o;
      assert Before(a[0], a[i + 1]);
    }
  }

  /** Expanding a window is expanding its two halves one after the other. */
  lemma WindowsCompose(t: Table, a: int, b: int, c: int,
                       whole: seq<Occurrence>, left: seq<Occurrence>, right: seq<Occurrence>)
    requires ValidTable(t) && a <= b < c
    requires Expansion(t, a, c, whole) && Expansion(t, a, b, left) && Expansion(t, b + 1, c, right)
    ensures whole == left + right
  {
    forall i, j | 0 <= i < j < |left + right| ensures Before((left + right)[i], (left + right)[j]) {
      if i < |left| <= j {
        assert left[i] in left && right[j - |left|] in right;
        assert Shown(t, a, b, left[i]) && Shown(t, b + 1, c, right[j - |left|]);
      }
    }
    forall o ensures o in whole <==> o in left + right {
      assert Shown(t, a, c, o) <==> Shown(t, a, b, o) || Shown(t, b + 1, c, o);
    }
    AscendingIsUnique(whole, left + right);
  }

  function Insert(os: seq<Occurrence>, o: Occurrence): seq<Occurrence> {
    if os == [] || Before(o, os[0]) then [o] + os else [os[0]] + Insert(os[1..], o)
  }

  lemma {:induction false} InsertAscends(os: seq<Occurrence>, o: Occurrence)
    requires Ascending(os) && forall x :: x in os ==> (x.day, x.id) != (o.day, o.id)
    ensures Ascending(Insert(os, o))
    ensures forall x :: x in Insert(os, o) <==> x in os || x == o
  {
    if os == [] {
    } else if Before(o, os[0]) {
      assert forall j :: 0 < j < |os| ==> Before(os[0], os[j]);
    } else {
      var rest := os[1..];
      assert os == [os[0]] + rest;
      assert forall x :: x in rest ==> Before(os[0], x);
      InsertAscends(rest, o);
      assert os[0] in os;
      var tail := Insert(rest, o);
      forall x | x in tail ensures Before(os[0], x) {
        assert x in rest || x == o;
      }
      assert forall j :: 0 <= j < |tail| ==> tail[j] in tail;
    }
  }

  datatype Expanded = Occurrences(os: seq<Occurrence>) | DateOverflow

  /** The rows the SELECT returns: live series that can reach the window. */
  predicate Candidate(s: Series, from: int, to: int) {
    !s.archived && s.start <= to && (s.end.Some? ==> s.end.value >= from)
  }

  ghost predicate ShownAmong(t: Table, ids: set<nat>, from: int, to: int, os: seq<Occurrence>)
    requires ValidTable(t)
  {
    && Ascending(os)
    && forall o :: o in os <==> Shown(t, from, to, o) && o.id in ids
  }

  /** The day walk of one row. Stepping past the last representable day raises, whatever occurs. */
  method WalkDays(t: Table, id: nat, from: int, to: int, before: seq<Occurrence>, ghost done: set<nat>)
    returns (r: Expanded)
    requires ValidTable(t) && id in t && Candidate(t[id], from, to) && id !in done && 1 <= from <= to <= MAX_DAY
    requires ShownAmong(t, done, from, to, before)
    ensures r.DateOverflow? <==> to == MAX_DAY
    ensures r.Occurrences? ==> ShownAmong(t, done + {id}, from, to, r.os)
  {
    var os := before;
    var d := from;
    while d <= to
      invariant from <= d <= to + 1 && (d > to ==> to < MAX_DAY)
      invariant Ascending(os)
      invariant forall o :: o in os <==> Shown(t, from, to, o) && (o.id in done || (o.id == id && o.day < d))
    {
      if Occurs(t[id], d) {
        var o := OccurrenceOf(t, id, d);
        InsertAscends(os, o);
        os := Insert(os, o);
      }
      if d == MAX_DAY {
        return DateOverflow;
      }
      d := d + 1;
    }
    return Occurrences(os);
  }

  /** A row the SELECT leaves out has nothing to show. */
  lemma OthersShowNothing(t: Table, id: nat, from: int, to: int, os: seq<Occurrence>, done: set<nat>)
    requires ValidTable(t) && id in t && !Candidate(t[id], from, to) && ShownAmong(t, done, from, to, os)
    ensures ShownAmong(t, done + {id}, from, to, os)
  {
    forall o ensures !(Shown(t, from, to, o) && o.id == id) {
    }
  }

  /** `occurrences_between`. The row prefilter drops nothing, and the answer is the expansion, unless
      the window ends on the last day of the calendar and some row is walked. */
  method OccurrencesBetween(t: Table, from: int, to: int) returns (r: Expanded)
    requires ValidTable(t) && 1 <= from <= MAX_DAY && 1 <= to <= MAX_DAY
    ensures r.DateOverflow? <==> from <= to == MAX_DAY && exists id :: id in t && Candidate(t[id], from, to)
    ensures r.Occurrences? ==> Expansion(t, from, to, r.os) && Chronological(r.os)
  {
    if to < from {
      return Occurrences([]);
    }
    var os: seq<Occurrence> := [];
    var todo := t.Keys;
    ghost var done: set<nat> := {};
    while todo != {}
      invariant todo + done == t.Keys && todo !! done
      invariant ShownAmong(t, done, from, to, os)
      invariant to == MAX_DAY ==> forall id :: id in done ==> !Candidate(t[id], from, to)
      decreases |todo|
    {
      var id :| id in todo;
      if Candidate(t[id], from, to) {
        var walked := WalkDays(t, id, from, to, os, done);
        if walked.DateOverflow? {
          return DateOverflow;
        }
        os := walked.os;
      } else {
        OthersShowNothing(t, id, from, to, os, done);
      }
      todo, done := todo - {id}, done + {id};
    }
    AscendingIsChronological(os);
    return Occurrences(os);
  }

  /** One daily row without an end. */
  const EVERY_DAY: Table := map[0 := Series(false, 1, None, Daily, 1, [], {}, true, None)]

  /** The expansion of the last day of the calendar exists and has one occurrence, yet asking for that day
      alone fails. */
  method LastDayOverflows() returns (r: Expanded)
    ensures ValidTable(EVERY_DAY) && r == DateOverflow
    ensures Expansion(EVERY_DAY, MAX_DAY, MAX_DAY, [OccurrenceOf(EVERY_DAY, 0, MAX_DAY)])
  {
    assert 0 in EVERY_DAY && Candidate(EVERY_DAY[0], MAX_DAY, MAX_DAY);
    r := OccurrencesBetween(EVERY_DAY, MAX_DAY, MAX_DAY);
  }

  // ----- skip and restore -----

  datatype Edit = Edited(event: bool) | UnknownEvent | NotAnOccurrence

  /** The concrete (series, day) pairs of a table. */
  ghost predicate Pair(t: Table, id: nat, d: int)
    requires ValidTable(t)
  {
    id in t && !t[id].archived && Occurs(t[id], d)
  }

  class EventTable {
    var rows: Table

    ghost predicate Valid()
      reads this
    {
      ValidTable(rows)
    }

    constructor (rows: Table)
      requires ValidTable(rows)
      ensures Valid() && this.rows == rows
    {
      this.rows := rows;
    }

    /** `skip_occurrence`: takes away exactly one pair, or nothing at all. */
    method Skip(id: nat, d: int) returns (e: Edit)
      requires Valid()
      modifies this
      ensures Valid() && rows.Keys == old(rows.Keys)
      ensures e == Edited(true) <==> old(Pair(rows, id, d))
      ensures e == Edited(true) ==>
                && !Pair(rows, id, d)
                && rows == old(rows)[id := old(rows)[id].(exdates := old(rows)[id].exdates + {d})]
      ensures forall i: nat, x :: (i, x) != (id, d) ==> (Pair(rows, i, x) <==> old(Pair(rows, i, x)))
      ensures e != Edited(true) ==> rows == old(rows)
      ensures e.UnknownEvent? <==> id !in old(rows) || old(rows)[id].archived
    {
      if id !in rows || rows[id].archived { return UnknownEvent; }
      if d in rows[id].exdates { return Edited(false); }
      if !Occurs(rows[id], d) { return NotAnOccurrence; }
      rows := rows[id := rows[id].(exdates := rows[id].exdates + {d})];
      return Edited(true);
    }

    /** `unskip_occurrence`: a skipped day of a live series is shown again if its rule says so. */
    method Unskip(id: nat, d: int) returns (e: Edit)
      requires Valid()
      modifies this
      ensures Valid() && rows.Keys == old(rows.Keys)
      ensures e == Edited(true) <==> id in old(rows) && !old(rows)[id].archived && d in old(rows)[id].exdates
      ensures e == UnknownEvent <==> id !in old(rows) || old(rows)[id].archived
      ensures e == Edited(true) ==> rows == old(rows)[id := old(rows)[id].(exdates := old(rows)[id].exdates - {d})]
      ensures forall i: nat, x :: (i, x) != (id, d) ==> (Pair(rows, i, x) <==> old(Pair(rows, i, x)))
      ensures e != Edited(true) ==> rows == old(rows)
    {
      if id !in rows || rows[id].archived { return UnknownEvent; }
      if d !in rows[id].exdates { return Edited(false); }
      rows := rows[id := rows[id].(exdates := rows[id].exdates - {d})];
      return Edited(true);
    }

    /** A skip that took effect is undone by the matching restore, down to the stored row. */
    method SkipThenUnskip(id: nat, d: int)
      requires Valid() && Pair(rows, id, d)
      modifies this
      ensures Valid() && rows == old(rows)
    {
      var skipped := Skip(id, d);
      var restored := Unskip(id, d);
      assert old(rows)[id].exdates + {d} - {d} == old(rows)[id].exdates;
    }
  }
}

/** Check-ins, notes and the seed as writers of rows plus events, and the restore that replays the events. */
module CheckinReplay {
  import opened Options

  datatype Status = FullDone | LightDone | Skipped | Failed

  datatype Item = Item(title: string, group: string, active: bool, sortOrder: int)

  datatype Checkin = Checkin(status: Status, note: Option<string>)

  /** The audit stream. `Other` stands for the events of every other feature. */
  datatype Event =
    | ItemCreated(id: nat, title: string, group: string, sortOrder: int)
    | CheckinUpserted(date: string, item: nat, itemTitle: string, status: Status, note: Option<string>)
    | CheckinCleared(date: string, item: nat, itemTitle: string)
    | NoteUpdated(date: string, text: string)
    | Other(kind: string)

  /** The tables a restore rebuilds; stamps and autoincrement ids of check-ins are not part of them. */
  datatype Tables = Tables(items: map<nat, Item>, checkins: map<(string, nat), Checkin>, notes: map<string, string>)

  const EMPTY := Tables(map[], map[], map[])

  /** Replaying can fail: a duplicate item id, an unknown item, a clear without a row. */
  datatype Replayed = Ok(t: Tables) | RestoreError

  /** One record of the replay loop of `_build_into`. */
  function ReplayEvent(t: Tables, e: Event): Replayed {
    match e
    case ItemCreated(id, title, group, sortOrder) =>
      if id in t.items then RestoreError
      else Ok(t.(items := t.items[id := Item(title, group, true, sortOrder)]))
    case CheckinUpserted(date, item, _, status, note) =>
      if item !in t.items then RestoreError
      else Ok(t.(checkins := t.checkins[(date, item) := Checkin(status, note)]))
    case CheckinCleared(date, item, _) =>
      if (date, item) !in t.checkins then RestoreError
      else Ok(t.(checkins := t.checkins - {(date, item)}))
    case NoteUpdated(date, text) => Ok(t.(notes := t.notes[date := text]))
    case Other(_) => Ok(t)
  }

  /** The whole stream, from the front, stopping at the first error. */
  function Replay(t: Tables, events: seq<Event>): Replayed
    decreases |events|
  {
    if events == [] then Ok(t)
    else
      var r := ReplayEvent(t, events[0]);
      if r.Ok? then Replay(r.t, events[1..]) else RestoreError
  }

  lemma {:induction false} ReplayConcat(t: Tables, a: seq<Event>, b: seq<Event>)
    ensures Replay(t, a + b) == if Replay(t, a).Ok? then Replay(Replay(t, a).t, b) else RestoreError
    decreases |a|
  {
    if a == [] {
      assert a + b == b;
    } else {
      assert (a + b)[1..] == a[1..] + b;
      var r := ReplayEvent(t, a[0]);
      if r.Ok? {
        ReplayConcat(r.t, a[1..], b);
      }
    }
  }

  lemma ReplayOne(t: Tables, e: Event)
    ensures Replay(t, [e]) == ReplayEvent(t, e)
  {
    assert [e][1..] == [];
  }

  /** The restore loop: events are kept, and the tables are the replay's. */
  method Restore(records: seq<Event>) returns (r: Replayed, events: seq<Event>)
    ensures r == Replay(EMPTY, records)
    ensures r.Ok? ==> events == records
  {
    var t := EMPTY;
    events := [];
    for i := 0 to |records|
      invariant events == records[..i] && Replay(EMPTY, records[..i]) == Ok(t)
    {
      assert records[..i + 1] == records[..i] + [records[i]];
      assert records == records[..i + 1] + records[i + 1..];
      ReplayConcat(EMPTY, records[..i], [records[i]]);
      ReplayOne(t, records[i]);
      ReplayConcat(EMPTY, records[..i + 1], records[i + 1..]);
      events := events + [records[i]];
      var step := ReplayEvent(t, records[i]);
      if step.RestoreError? { return RestoreError, events; }
      t := step.t;
    }
    assert records[..|records|] == records;
    return Ok(t), events;
  }

  datatype WriteError = NothingToUpdate | UnknownItem | PickStatusFirst

  datatype Write<+T> = Written(value: T) | Rejected(why: WriteError)

  datatype Toggled = Cleared | Set

  /** SEED_ITEMS. */
  const SEED: seq<(string, string, int)> := [
    ("Sleep", "Core Routine", 10), ("Food", "Core Routine", 20), ("Sport / show up", "Core Routine", 30),
    ("Evening walk", "Core Routine", 40), ("Daily output", "Core Routine", 50)]

  /** The live database: its tables and the events written in the same transactions. */
  class Activity {
    var items: map<nat, Item>
    var nextItem: nat
    var checkins: map<(string, nat), Checkin>
    var notes: map<string, string>
    var events: seq<Event>

    ghost function State(): Tables
      reads this
    {
      Tables(items, checkins, notes)
    }

    /** The audit stream alone determines the tables, and replaying it never fails. */
    ghost predicate Valid()
      reads this
    {
      && Replay(EMPTY, events) == Ok(State())
      && nextItem >= 1
      && (forall id :: id in items ==> 1 <= id < nextItem)
      && forall key :: key in checkins ==> key.1 in items
    }

    constructor ()
      ensures Valid() && State() == EMPTY && events == [] && nextItem == 1
    {
      items, nextItem, checkins, notes, events := map[], 1, map[], map[], [];
    }

    /** A transaction that changes the tables as its event says keeps the stream replayable. */
    lemma Logged(before: Tables, log: seq<Event>, e: Event)
      requires Replay(EMPTY, log) == Ok(before)
      ensures Replay(EMPTY, log + [e]) == ReplayEvent(before, e)
    {
      ReplayConcat(EMPTY, log, [e]);
      ReplayOne(before, e);
    }

    /** Events of other features change none of these tables. */
    method AppendOther(kind: string)
      requires Valid()
      modifies this`events
      ensures Valid() && events == old(events) + [Other(kind)]
    {
      Logged(State(), events, Other(kind));
      events := events + [Other(kind)];
    }

    /** Seed habit k stands under the k-th id after `first`. */
    static predicate SeededAt(items: map<nat, Item>, first: nat, k: nat)
      requires k < |SEED|
    {
      first + k in items && items[first + k] == Item(SEED[k].0, SEED[k].1, true, SEED[k].2)
    }

    /** The creation of the first n seed habits under ids from `first` on. */
    static function SeedEvents(first: nat, n: nat): seq<Event>
      requires n <= |SEED|
    {
      seq(n, k requires 0 <= k < n => ItemCreated(first + k, SEED[k].0, SEED[k].1, SEED[k].2))
    }

    /** One item row with its event. */
    method CreateItem(title: string, group: string, sortOrder: int)
      requires Valid()
      modifies this
      ensures Valid() && nextItem == old(nextItem) + 1
      ensures old(nextItem) !in old(items) && items == old(items)[old(nextItem) := Item(title, group, true, sortOrder)]
      ensures |items| == |old(items)| + 1 && checkins == old(checkins) && notes == old(notes)
      ensures events == old(events) + [ItemCreated(old(nextItem), title, group, sortOrder)]
    {
      var e := ItemCreated(nextItem, title, group, sortOrder);
      Logged(State(), events, e);
      assert nextItem !in items;
      var item := Item(title, group, true, sortOrder);
      ghost var was := items;
      items := items[nextItem := item];
      events := events + [e];
      nextItem := nextItem + 1;
      forall id | id in items ensures 1 <= id < nextItem {
        assert id in was || id == nextItem - 1;
      }
    }

    static lemma SeededOneMore(was: map<nat, Item>, items: map<nat, Item>, first: nat, k: nat)
      requires k < |SEED| && forall j :: 0 <= j < k ==> SeededAt(was, first, j)
      requires items == was[first + k := Item(SEED[k].0, SEED[k].1, true, SEED[k].2)]
      ensures forall j :: 0 <= j < k + 1 ==> SeededAt(items, first, j)
      ensures SeedEvents(first, k + 1) ==
              SeedEvents(first, k) + [ItemCreated(first + k, SEED[k].0, SEED[k].1, SEED[k].2)]
    {
      forall j | 0 <= j < k ensures SeededAt(items, first, j) {
        assert SeededAt(was, first, j);
      }
    }

    /** `seed_if_empty`. */
    method SeedIfEmpty() returns (n: nat)
      requires Valid()
      modifies this
      ensures Valid() && old(events) <= events
      ensures n == if old(items) == map[] then |SEED| else 0
      ensures |items| == |old(items)| + n && checkins == old(checkins) && notes == old(notes)
      ensures n > 0 ==> forall k :: 0 <= k < |SEED| ==> SeededAt(items, old(nextItem), k)
      ensures events == old(events) + if n > 0 then SeedEvents(old(nextItem), |SEED|) else []
    {
      if |items| > 0 { return 0; }
      var first := nextItem;
      for k := 0 to |SEED|
        invariant Valid() && old(events) <= events && nextItem == first + k
        invariant |items| == k && checkins == old(checkins) && notes == old(notes)
        invariant forall j :: 0 <= j < k ==> SeededAt(items, first, j)
        invariant events == old(events) + SeedEvents(first, k)
      {
        ghost var was := items;
        CreateItem(SEED[k].0, SEED[k].1, SEED[k].2);
        SeededOneMore(was, items, first, k);
      }
      return |SEED|;
    }

    /** `upsert_checkin`: status first, absent fields leave their column alone. */
    method UpsertCheckin(date: string, item: nat, status: Option<Status>, note: Option<string>)
      returns (w: Write<Status>)
      requires Valid()
      modifies this
      ensures Valid() && items == old(items) && notes == old(notes)
      ensures w == Rejected(NothingToUpdate) <==> status == None && note == None
      ensures w == Rejected(UnknownItem) <==> (status.Some? || note.Some?) && item !in items
      ensures w == Rejected(PickStatusFirst) <==>
                status == None && note.Some? && item in items && (date, item) !in old(checkins)
      ensures w.Rejected? <==>
                || (status == None && note == None) || item !in items
                || (status == None && (date, item) !in old(checkins))
      ensures w.Rejected? ==> checkins == old(checkins) && events == old(events)
      ensures w.Written? ==> (date, item) in checkins
      ensures w.Written? ==>
                events == old(events)
                          + [CheckinUpserted(date, item, items[item].title, w.value, checkins[(date, item)].note)]
      ensures w.Written? ==> checkins == old(checkins)[(date, item) := Checkin(w.value,
        if note.Some? then note else if (date, item) in old(checkins) then old(checkins)[(date, item)].note else None)]
      ensures w.Written? ==>
                w.value == if status.Some? then status.value else old(checkins)[(date, item)].status
    {
      if status == None && note == None { return Rejected(NothingToUpdate); }
      if item !in items { return Rejected(UnknownItem); }
      var row;
      if (date, item) !in checkins {
        if status == None { return Rejected(PickStatusFirst); }
        row := Checkin(status.value, note);
      } else {
        var existing := checkins[(date, item)];
        row := Checkin(if status.Some? then status.value else existing.status,
                       if note.Some? then note else existing.note);
      }
      var e := CheckinUpserted(date, item, items[item].title, row.status, row.note);
      Logged(State(), events, e);
      checkins := checkins[(date, item) := row];
      events := events + [e];
      return Written(row.status);
    }

    /** `clear_checkin`: idempotent, with one event exactly when a row went away. */
    method ClearCheckin(date: string, item: nat) returns (w: Write<bool>)
      requires Valid()
      modifies this
      ensures Valid() && items == old(items) && notes == old(notes)
      ensures w == Rejected(UnknownItem) <==> item !in items
      ensures w.Rejected? ==> w.why == UnknownItem
      ensures w == Written(true) <==> (date, item) in old(checkins)
      ensures checkins == old(checkins) - {(date, item)}
      ensures events == old(events) + if w == Written(true) then [CheckinCleared(date, item, items[item].title)] else []
    {
      if item !in items { return Rejected(UnknownItem); }
      if (date, item) !in checkins {
        assert checkins - {(date, item)} == checkins;
        return Written(false);
      }
      var e := CheckinCleared(date, item, items[item].title);
      Logged(State(), events, e);
      checkins := checkins - {(date, item)};
      events := events + [e];
      return Written(true);
    }

    /** `apply_status`: tapping the selected status clears it, any other one is set. */
    method ApplyStatus(date: string, item: nat, status: Status) returns (w: Write<Toggled>)
      requires Valid()
      modifies this
      ensures Valid() && items == old(items) && notes == old(notes)
      ensures w.Rejected? <==> item !in items
      ensures w == Written(Cleared) <==> (date, item) in old(checkins) && old(checkins)[(date, item)].status == status
      ensures w.Rejected? || w == Written(Cleared) || w == Written(Set)
      ensures w.Rejected? ==> w.why == UnknownItem
      ensures w == Written(Cleared) ==> checkins == old(checkins) - {(date, item)}
      ensures w == Written(Set) ==> checkins == old(checkins)[(date, item) :=
        Checkin(status, if (date, item) in old(checkins) then old(checkins)[(date, item)].note else None)]
      ensures w.Rejected? ==> checkins == old(checkins) && events == old(events)
      ensures w == Written(Cleared) ==> events == old(events) + [CheckinCleared(date, item, items[item].title)]
      ensures w == Written(Set) ==>
                events == old(events)
                          + [CheckinUpserted(date, item, items[item].title, status, checkins[(date, item)].note)]
    {
      if (date, item) in checkins && checkins[(date, item)].status == status {
        assert (date, item).1 in items;
        var cleared := ClearCheckin(date, item);
        return Written(Cleared);
      }
      var set_ := UpsertCheckin(date, item, Some(status), None);
      if set_.Rejected? { return Rejected(set_.why); }
      return Written(Set);
    }

    /** `upsert_daily_note`. */
    method UpsertDailyNote(date: string, text: string)
      requires Valid()
      modifies this
      ensures Valid() && items == old(items) && checkins == old(checkins)
      ensures notes == old(notes)[date := text] && events == old(events) + [NoteUpdated(date, text)]
    {
      Logged(State(), events, NoteUpdated(date, text));
      notes := notes[date := text];
      events := events + [NoteUpdated(date, text)];
    }

    /** The round trip, after any run of the writers: a restore of the stream into empty tables
        succeeds and yields the same items, check-ins and notes. */
    method ExportAndRestore() returns (r: Replayed)
      requires Valid()
      ensures r == Ok(State())
    {
      var kept;
      r, kept := Restore(events);
    }

    /** Two equal taps in a row undo each other when there was no check-in before, or it had that status
        and no note; else a check-in with another status is gone, and a note is lost. */
    method TapTwice(date: string, item: nat, status: Status) returns (first: Write<Toggled>, second: Write<Toggled>)
      requires Valid()
      modifies this
      ensures Valid()
      ensures item !in items <==> first.Rejected? && second.Rejected?
      ensures item in items ==>
                (&& {first, second} == {Written(Set), Written(Cleared)}
                 && |events| == |old(events)| + 2 && old(events) <= events)
      ensures State() == old(State()) <==>
                || item !in items || (date, item) !in old(checkins)
                || old(checkins)[(date, item)] == Checkin(status, None)
      ensures second == Written(Cleared) ==> checkins == old(checkins) - {(date, item)}
      ensures second == Written(Set) ==> checkins == old(checkins)[(date, item) := Checkin(status, None)]
    {
      ghost var before := checkins;
      first := ApplyStatus(date, item, status);
      ghost var between := checkins;
      second := ApplyStatus(date, item, status);
      var key := (date, item);
      if first == Written(Set) {
        assert between == before[key := between[key]] && second == Written(Cleared);
        assert checkins == before - {key};
        assert key !in before ==> before - {key} == before;
      } else if first == Written(Cleared) {
        assert key in before && key.1 in items;
        assert between == before - {key};
        assert second == Written(Set);
        assert checkins == before[key := Checkin(status, None)];
        assert before[key] == Checkin(status, None) ==> before[key := before[key]] == before;
      }
    }
  }

  /** Every clear in a stream the writers produced has its row: a prefix of a replayable stream is
      replayable, so a restore of any earlier export succeeds too. */
  lemma PrefixReplays(events: seq<Event>, k: nat)
    requires k <= |events| && Replay(EMPTY, events).Ok?
    ensures Replay(EMPTY, events[..k]).Ok?
    ensures Replay(Replay(EMPTY, events[..k]).t, events[k..]) == Replay(EMPTY, events)
  {
    assert events == events[..k] + events[k..];
    ReplayConcat(EMPTY, events[..k], events[k..]);
  }
}

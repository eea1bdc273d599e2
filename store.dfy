/** The server's event and attendee tables and the queries the API runs on
    them (backend/database.js). Each table is a sequence of rows in storage
    order; `attendees.event_id` references `events.id` with ON DELETE CASCADE.
    A statement that would put NULL into a NOT NULL column fails with a
    database error; statements are not grouped into transactions. */
module Store {
  import opened Common
  import Text

  /** A row of `events`. Title, date, time and location are NOT NULL. */
  datatype EventRow = EventRow(
    id: int,
    title: string,
    description: Option<string>,
    date: string,
    time: string,
    location: string,
    maxAttendees: Option<int>,
    status: Option<string>,
    createdAt: int,
    updatedAt: int)

  /** A row of `attendees`. Name, team and phone are NOT NULL. */
  datatype AttendeeRow = AttendeeRow(
    eventId: int,
    name: string,
    team: string,
    phone: string,
    role: string,
    joinedAt: Option<int>,
    joinOrder: int)

  /** One entry of a request's `attendees` array; any field may be missing. */
  datatype AttendeeInput = AttendeeInput(
    name: Option<string>,
    team: Option<string>,
    phone: Option<string>,
    role: Option<string>,
    joinedAt: Option<int>,
    joinOrder: Option<int>)

  /** A request body for creating or updating an event. */
  datatype EventPayload = EventPayload(
    title: Option<string>,
    description: Option<string>,
    date: Option<string>,
    time: Option<string>,
    location: Option<string>,
    maxAttendees: Option<int>,
    status: Option<string>,
    attendees: Option<seq<AttendeeInput>>)

  /** An attendee as the API returns it. */
  datatype AttendeeView = AttendeeView(
    name: string, team: string, phone: string, role: string,
    joinedAt: Option<int>, joinOrder: int)

  /** An event as the API returns it, attendees included. */
  datatype EventView = EventView(
    id: int,
    title: string,
    description: Option<string>,
    date: string,
    time: string,
    location: string,
    maxAttendees: Option<int>,
    status: Option<string>,
    createdAt: int,
    updatedAt: int,
    attendees: seq<AttendeeView>)

  /** What a write query gives back: the event as stored, no row with that id
      (the JavaScript `null`), or a database error (a thrown exception). */
  datatype WriteResult = Stored(view: EventView) | NoSuchEvent | DbError

  // ---- Table semantics ----

  predicate HasEvent(events: seq<EventRow>, id: int)
  {
    exists e :: e in events && e.id == id
  }

  /** The position of the first row with this id, or `|events|`. */
  function FindEvent(events: seq<EventRow>, id: int): (k: nat)
    ensures k <= |events|
    ensures k < |events| ==> events[k].id == id
    ensures k == |events| <==> !HasEvent(events, id)
  {
    if events == [] then 0
    else if events[0].id == id then 0
    else
      assert forall e :: e in events[1..] ==> e in events;
      assert forall e :: e in events && e != events[0] ==> e in events[1..];
      1 + FindEvent(events[1..], id)
  }

  function OfEvent(id: int): AttendeeRow -> bool
  {
    (a: AttendeeRow) => a.eventId == id
  }

  function NotOfEvent(id: int): AttendeeRow -> bool
  {
    (a: AttendeeRow) => a.eventId != id
  }

  function NotWithId(id: int): EventRow -> bool
  {
    (e: EventRow) => e.id != id
  }

  /** The attendee rows of one event, in storage order. */
  function RowsOf(rows: seq<AttendeeRow>, id: int): (r: seq<AttendeeRow>)
    ensures forall a :: a in r <==> a in rows && a.eventId == id
    ensures forall a: AttendeeRow :: a.eventId == id ==> multiset(r)[a] == multiset(rows)[a]
  {
    Filter(rows, OfEvent(id))
  }

  function AttendeeViewOf(a: AttendeeRow): AttendeeView
  {
    AttendeeView(a.name, a.team, a.phone, a.role, a.joinedAt, a.joinOrder)
  }

  function JoinOrderOf(v: AttendeeView): int
  {
    v.joinOrder
  }

  /** `SELECT * FROM attendees WHERE event_id = $1 ORDER BY join_order ASC`:
      exactly the event's rows, ascending by join order. */
  function AttendeesOf(rows: seq<AttendeeRow>, id: int): (v: seq<AttendeeView>)
    ensures Ascending(v, JoinOrderOf)
    ensures multiset(v) == multiset(MapSeq(RowsOf(rows, id), AttendeeViewOf))
  {
    SortBy(MapSeq(RowsOf(rows, id), AttendeeViewOf), JoinOrderOf)
  }

  /** An event row with its attendees, as the API returns it. */
  function ViewOf(e: EventRow, rows: seq<AttendeeRow>): (v: EventView)
    ensures v.id == e.id && v.title == e.title && v.description == e.description
    ensures v.date == e.date && v.time == e.time && v.location == e.location
    ensures v.maxAttendees == e.maxAttendees && v.status == e.status
    ensures v.createdAt == e.createdAt && v.updatedAt == e.updatedAt
    ensures v.attendees == AttendeesOf(rows, e.id)
  {
    EventView(e.id, e.title, e.description, e.date, e.time, e.location,
              e.maxAttendees, e.status, e.createdAt, e.updatedAt, AttendeesOf(rows, e.id))
  }

  function NegCreatedAt(v: EventView): int
  {
    -v.createdAt
  }

  /** The NOT NULL columns of `events` all receive a value. */
  predicate FitsEventColumns(data: EventPayload)
  {
    data.title.Some? && data.date.Some? && data.time.Some? && data.location.Some?
  }

  /** The NOT NULL columns of `attendees` all receive a value. */
  predicate FitsAttendeeColumns(a: AttendeeInput)
  {
    a.name.Some? && a.team.Some? && a.phone.Some?
  }

  /** How many leading entries of `list` can be inserted before one fails. */
  function InsertablePrefix(list: seq<AttendeeInput>): (k: nat)
    ensures k <= |list|
    ensures forall j :: 0 <= j < k ==> FitsAttendeeColumns(list[j])
    ensures k < |list| ==> !FitsAttendeeColumns(list[k])
  {
    if list == [] || !FitsAttendeeColumns(list[0]) then 0
    else 1 + InsertablePrefix(list[1..])
  }

  /** The row inserted for entry `i` of a request's attendee list: role
      defaults to "guest" and a missing or zero join order to `i + 1`. */
  function NewRow(id: int, a: AttendeeInput, i: nat): (row: AttendeeRow)
    requires FitsAttendeeColumns(a)
    ensures row.eventId == id && row.joinOrder != 0 && row.role != []
    ensures row.name == a.name.value && row.team == a.team.value && row.phone == a.phone.value
    ensures row.joinedAt == a.joinedAt
    ensures a.role.Some? && a.role.value != [] ==> row.role == a.role.value
    ensures a.joinOrder.Some? && a.joinOrder.value != 0 ==> row.joinOrder == a.joinOrder.value
    ensures a.joinOrder.None? || a.joinOrder.value == 0 ==> row.joinOrder == i + 1
  {
    var order := if a.joinOrder.Some? && a.joinOrder.value != 0 then a.joinOrder.value else i + 1;
    AttendeeRow(id, a.name.value, a.team.value, a.phone.value, Text.Or(a.role, "guest"), a.joinedAt, order)
  }

  /** The rows inserted, in order, for a prefix of a request's attendee list. */
  function NewRows(id: int, list: seq<AttendeeInput>): (rows: seq<AttendeeRow>)
    requires forall j :: 0 <= j < |list| ==> FitsAttendeeColumns(list[j])
    ensures |rows| == |list|
    ensures forall j :: 0 <= j < |list| ==> rows[j] == NewRow(id, list[j], j)
  {
    seq(|list|, j requires 0 <= j < |list| => NewRow(id, list[j], j))
  }

  /** Inserting one more entry adds its row at the end. */
  lemma NewRowsNext(id: int, list: seq<AttendeeInput>, i: nat)
    requires i < |list|
    requires forall j :: 0 <= j <= i ==> FitsAttendeeColumns(list[j])
    ensures NewRows(id, list[..i + 1]) == NewRows(id, list[..i]) + [NewRow(id, list[i], i)]
  {
    assert list[..i + 1] == list[..i] + [list[i]];
  }

  /** The row `UPDATE events SET ... WHERE id = $8` leaves: all seven columns
      take the request's values, missing ones becoming NULL. */
  function Overwrite(e: EventRow, data: EventPayload, now: int): (r: EventRow)
    requires FitsEventColumns(data)
    ensures r.id == e.id && r.createdAt == e.createdAt && r.updatedAt == now
    ensures r.title == data.title.value && r.date == data.date.value
    ensures r.time == data.time.value && r.location == data.location.value
    ensures r.description == data.description && r.maxAttendees == data.maxAttendees
    ensures r.status == data.status
  {
    EventRow(e.id, data.title.value, data.description, data.date.value, data.time.value,
             data.location.value, data.maxAttendees, data.status, e.createdAt, now)
  }

  /** The table after the UPDATE: rows with this id overwritten, the rest as they were. */
  function UpdateRows(events: seq<EventRow>, id: int, data: EventPayload, now: int): (r: seq<EventRow>)
    requires FitsEventColumns(data)
    ensures |r| == |events|
    ensures forall i :: 0 <= i < |events| ==>
      r[i] == if events[i].id == id then Overwrite(events[i], data, now) else events[i]
  {
    seq(|events|, i requires 0 <= i < |events| =>
      if events[i].id == id then Overwrite(events[i], data, now) else events[i])
  }

  /** Each event row with its attendees, in storage order. */
  function ViewsOf(events: seq<EventRow>, rows: seq<AttendeeRow>): (v: seq<EventView>)
    ensures |v| == |events|
    ensures forall i :: 0 <= i < |events| ==> v[i] == ViewOf(events[i], rows)
  {
    seq(|events|, i requires 0 <= i < |events| => ViewOf(events[i], rows))
  }

  /** `ORDER BY created_at DESC`. */
  function NewestFirst(views: seq<EventView>): (r: seq<EventView>)
    ensures |r| == |views| && multiset(r) == multiset(views)
    ensures forall i, j :: 0 <= i < j < |r| ==> r[i].createdAt >= r[j].createdAt
  {
    var r := SortBy(views, NegCreatedAt);
    assert forall i, j :: 0 <= i < j < |r| ==> NegCreatedAt(r[i]) <= NegCreatedAt(r[j]);
    r
  }

  // ---- Facts about the table operations ----

  lemma {:induction false} FilterConcat<T(!new)>(a: seq<T>, b: seq<T>, keep: T -> bool)
    ensures Filter(a + b, keep) == Filter(a, keep) + Filter(b, keep)
  {
    if a == [] {
      assert a + b == b;
    } else {
      assert (a + b)[1..] == a[1..] + b;
      FilterConcat(a[1..], b, keep);
    }
  }

  lemma {:induction false} RowsOfAllMatching(rows: seq<AttendeeRow>, id: int)
    requires forall j :: 0 <= j < |rows| ==> rows[j].eventId == id
    ensures RowsOf(rows, id) == rows
  {
    FilterAll(rows, OfEvent(id));
  }

  lemma {:induction false} RowsOfNoneMatching(rows: seq<AttendeeRow>, id: int)
    requires forall j :: 0 <= j < |rows| ==> rows[j].eventId != id
    ensures RowsOf(rows, id) == []
  {
  }

  /** Replacing one event's attendee rows: that event's rows become exactly
      the new rows, in order, and every other event keeps its rows. */
  lemma {:induction false} ReplaceRowsOf(rows: seq<AttendeeRow>, id: int, added: seq<AttendeeRow>, other: int)
    requires forall j :: 0 <= j < |added| ==> added[j].eventId == id
    ensures RowsOf(Filter(rows, NotOfEvent(id)) + added, id) == added
    ensures other != id ==>
      RowsOf(Filter(rows, NotOfEvent(id)) + added, other) == RowsOf(rows, other)
  {
    var kept := Filter(rows, NotOfEvent(id));
    FilterConcat(kept, added, OfEvent(id));
    FilterConcat(kept, added, OfEvent(other));
    forall j | 0 <= j < |kept| ensures kept[j].eventId != id {
      assert kept[j] in kept;
    }
    RowsOfNoneMatching(kept, id);
    RowsOfAllMatching(added, id);
    if other != id {
      RowsOfNoneMatching(added, other);
      FilterOfFilter(rows, id, other);
    }
  }

  /** Dropping one event's rows does not change another event's rows. */
  lemma {:induction false} FilterOfFilter(rows: seq<AttendeeRow>, id: int, other: int)
    requires other != id
    ensures RowsOf(Filter(rows, NotOfEvent(id)), other) == RowsOf(rows, other)
  {
    if rows != [] {
      assert Filter(rows, NotOfEvent(id)) ==
        (if rows[0].eventId != id then [rows[0]] else []) + Filter(rows[1..], NotOfEvent(id));
      FilterOfFilter(rows[1..], id, other);
      FilterConcat(if rows[0].eventId != id then [rows[0]] else [], Filter(rows[1..], NotOfEvent(id)),
                   OfEvent(other));
    }
  }

  /** Every attendee row references an existing event (the foreign key). */
  ghost predicate Referenced(events: seq<EventRow>, rows: seq<AttendeeRow>)
  {
    forall a :: a in rows ==> HasEvent(events, a.eventId)
  }

  /** The tables' integrity: event ids are positive, below the next id and
      name one row each, and the foreign key holds. */
  ghost predicate TablesValid(events: seq<EventRow>, rows: seq<AttendeeRow>, nextId: int)
  {
    && 1 <= nextId
    && (forall e :: e in events ==> 1 <= e.id < nextId)
    && (forall e1, e2 :: e1 in events && e2 in events && e1.id == e2.id ==> e1 == e2)
    && Referenced(events, rows)
  }

  /** Inserting a row with the next id keeps the tables valid; no attendee
      row references it yet, and it is the row found for its id. */
  lemma InsertKeepsValid(events: seq<EventRow>, rows: seq<AttendeeRow>, nextId: int, row: EventRow)
    requires TablesValid(events, rows, nextId) && row.id == nextId
    ensures TablesValid(events + [row], rows, nextId + 1)
    ensures RowsOf(rows, row.id) == []
    ensures FindEvent(events + [row], row.id) == |events|
  {
    forall j | 0 <= j < |rows| ensures rows[j].eventId != row.id {
      assert rows[j] in rows;
    }
    RowsOfNoneMatching(rows, row.id);

  }

  /** Overwriting an event's columns keeps the tables valid and the same ids present. */
  lemma UpdateKeepsValid(events: seq<EventRow>, rows: seq<AttendeeRow>, nextId: int,
                         id: int, data: EventPayload, now: int)
    requires TablesValid(events, rows, nextId) && FitsEventColumns(data)
    ensures TablesValid(UpdateRows(events, id, data, now), rows, nextId)
    ensures forall x :: HasEvent(UpdateRows(events, id, data, now), x) <==> HasEvent(events, x)
  {
    UpdateKeepsIds(events, id, data, now);
  }

  /** Replacing an existing event's attendee rows with rows of that event
      keeps the tables valid. */
  lemma ReplaceKeepsValid(events: seq<EventRow>, rows: seq<AttendeeRow>, nextId: int,
                          id: int, added: seq<AttendeeRow>)
    requires TablesValid(events, rows, nextId) && HasEvent(events, id)
    requires forall j :: 0 <= j < |added| ==> added[j].eventId == id
    ensures TablesValid(events, Filter(rows, NotOfEvent(id)) + added, nextId)
  {
  }

  /** Deleting an event, with the cascade on its attendee rows, keeps the
      tables valid; nothing of the event is left and other events keep their
      attendee rows. */
  lemma DeleteKeepsValid(events: seq<EventRow>, rows: seq<AttendeeRow>, nextId: int, id: int)
    requires TablesValid(events, rows, nextId)
    ensures TablesValid(Filter(events, NotWithId(id)), Filter(rows, NotOfEvent(id)), nextId)
    ensures !HasEvent(Filter(events, NotWithId(id)), id)
    ensures RowsOf(Filter(rows, NotOfEvent(id)), id) == []
    ensures forall other :: other != id ==>
      RowsOf(Filter(rows, NotOfEvent(id)), other) == RowsOf(rows, other)
  {
    var evs := Filter(events, NotWithId(id));
    var kept := Filter(rows, NotOfEvent(id));
    forall j | 0 <= j < |kept| ensures kept[j].eventId != id {
      assert kept[j] in kept;
    }
    RowsOfNoneMatching(kept, id);
    forall other | other != id ensures RowsOf(kept, other) == RowsOf(rows, other) {
      FilterOfFilter(rows, id, other);
    }
    forall a | a in kept ensures HasEvent(evs, a.eventId) {
      var e :| e in events && e.id == a.eventId;
      assert e in evs;
    }
  }

  /** The two tables, with the id sequence of `events`. */
  class EventStore {
    var events: seq<EventRow>
    var attendees: seq<AttendeeRow>
    var nextId: int

    ghost predicate Valid()
      reads this
    {
      TablesValid(events, attendees, nextId)
    }

    constructor ()
      ensures Valid() && events == [] && attendees == [] && nextId == 1
    {
      events := [];
      attendees := [];
      nextId := 1;
    }

    /** `getEventById`: null when no event has the id; otherwise that event's
        columns with its attendees in ascending join order. */
    function GetEventById(id: int): (r: Option<EventView>)
      reads this
      ensures r.None? <==> !HasEvent(events, id)
      ensures r.Some? ==> exists e :: e in events && e.id == id && r.value == ViewOf(e, attendees)
      ensures r.Some? ==> r.value.id == id && Ascending(r.value.attendees, JoinOrderOf)
      ensures r.Some? ==>
        multiset(r.value.attendees) == multiset(MapSeq(RowsOf(attendees, id), AttendeeViewOf))
    {
      var k := FindEvent(events, id);
      if k == |events| then None else Some(ViewOf(events[k], attendees))
    }

    /** `getAllEvents`: every event with its attendees, newest first. */
    function GetAllEvents(): (r: seq<EventView>)
      reads this
      ensures |r| == |events|
      ensures forall i, j :: 0 <= i < j < |r| ==> r[i].createdAt >= r[j].createdAt
      ensures multiset(r) == multiset(ViewsOf(events, attendees))
    {
      NewestFirst(ViewsOf(events, attendees))
    }

    /** `createEvent`: a new row with the next id, status defaulting to
        "planned" and both timestamps `now`, returned with no attendees. A
        request missing a NOT NULL column fails and adds no row (the id is
        still used up, as a sequence is). */
    method CreateEvent(data: EventPayload, now: int) returns (r: WriteResult)
      requires Valid()
      modifies this
      ensures Valid() && nextId == old(nextId) + 1 && attendees == old(attendees)
      ensures !FitsEventColumns(data) ==> r == DbError && events == old(events)
      ensures FitsEventColumns(data) ==>
        && events == old(events) + [EventRow(old(nextId), data.title.value, data.description,
                                            data.date.value, data.time.value, data.location.value,
                                            data.maxAttendees, Some(Text.Or(data.status, "planned")), now, now)]
        && r.Stored? && r.view.id == old(nextId)
        && r.view.status == Some(Text.Or(data.status, "planned"))
        && r.view.attendees == []
        && Some(r.view) == GetEventById(old(nextId))
    {
      var id := nextId;
      if !FitsEventColumns(data) {
        nextId := nextId + 1;
        return DbError;
      }
      var row := EventRow(id, data.title.value, data.description, data.date.value, data.time.value,
                          data.location.value, data.maxAttendees, Some(Text.Or(data.status, "planned")), now, now);
      InsertKeepsValid(events, attendees, nextId, row);
      r := Stored(ViewOf(row, attendees));
      events := events + [row];
      nextId := nextId + 1;
    }

    /** `updateEvent`. Without a row for the id: null and no change. With one,
        the UPDATE overwrites all seven columns (failing, with no change, if a
        NOT NULL column gets no value). If the request carries an `attendees`
        array, the event's attendee rows are deleted and the entries inserted
        one by one; an entry missing a NOT NULL column stops the loop with a
        database error, leaving what was already done in place. */
    method UpdateEvent(id: int, data: EventPayload, now: int) returns (r: WriteResult)
      requires Valid()
      modifies this
      ensures Valid() && nextId == old(nextId)
      ensures !HasEvent(old(events), id) ==>
        r == NoSuchEvent && events == old(events) && attendees == old(attendees)
      ensures HasEvent(old(events), id) && !FitsEventColumns(data) ==>
        r == DbError && events == old(events) && attendees == old(attendees)
      ensures HasEvent(old(events), id) && FitsEventColumns(data) ==>
        && events == UpdateRows(old(events), id, data, now)
        && (data.attendees.None? ==> attendees == old(attendees) && r == Stored(GetEventById(id).value))
        && (data.attendees.Some? ==>
              var list := data.attendees.value;
              var k := InsertablePrefix(list);
              && attendees == Filter(old(attendees), NotOfEvent(id)) + NewRows(id, list[..k])
              && r == if k == |list| then Stored(GetEventById(id).value) else DbError)
    {
      if FindEvent(events, id) == |events| {
        return NoSuchEvent;
      }
      if !FitsEventColumns(data) {
        return DbError;
      }
      UpdateKeepsValid(events, attendees, nextId, id, data, now);
      events := UpdateRows(events, id, data, now);
      if data.attendees.Some? {
        var ok := ReplaceAttendees(id, data.attendees.value);
        if !ok {
          return DbError;
        }
      }
      r := Stored(GetEventById(id).value);
    }

    /** The attendee part of `updateEvent`: delete the event's rows, then
        insert the entries one at a time, stopping with an error at the first
        entry missing a NOT NULL column. */
    method ReplaceAttendees(id: int, list: seq<AttendeeInput>) returns (ok: bool)
      requires Valid() && HasEvent(events, id)
      modifies this
      ensures Valid() && events == old(events) && nextId == old(nextId)
      ensures ok <==> InsertablePrefix(list) == |list|
      ensures attendees == Filter(old(attendees), NotOfEvent(id)) + NewRows(id, list[..InsertablePrefix(list)])
    {
      var kept := Filter(attendees, NotOfEvent(id));
      attendees := kept;
      var k := InsertRows(id, list);
      ReplaceKeepsValid(events, old(attendees), nextId, id, NewRows(id, list[..k]));
      ok := k == |list|;
    }

    /** The `for` loop of `updateEvent`: one INSERT per entry, in order,
        until an entry misses a NOT NULL column; returns how many went in. */
    method InsertRows(id: int, list: seq<AttendeeInput>) returns (k: nat)
      modifies this
      ensures k == InsertablePrefix(list)
      ensures attendees == old(attendees) + NewRows(id, list[..k])
      ensures events == old(events) && nextId == old(nextId)
    {
      ghost var n := InsertablePrefix(list);
      k := 0;
      while k < |list| && FitsAttendeeColumns(list[k])
        invariant 0 <= k <= n
        invariant events == old(events) && nextId == old(nextId)
        invariant attendees == old(attendees) + NewRows(id, list[..k])
      {
        assert k < n;
        NewRowsNext(id, list, k);
        attendees := attendees + [NewRow(id, list[k], k)];
        k := k + 1;
      }
    }

    /** `deleteEvent`: true exactly when a row had the id; that row and, by
        the cascade, all of its attendee rows are gone, and nothing else. */
    method DeleteEvent(id: int) returns (deleted: bool)
      requires Valid()
      modifies this
      ensures Valid() && nextId == old(nextId)
      ensures deleted <==> HasEvent(old(events), id)
      ensures events == Filter(old(events), NotWithId(id))
      ensures attendees == Filter(old(attendees), NotOfEvent(id))
      ensures GetEventById(id) == None && RowsOf(attendees, id) == []
      ensures forall other :: other != id ==> RowsOf(attendees, other) == RowsOf(old(attendees), other)
    {
      DeleteKeepsValid(events, attendees, nextId, id);
      deleted := FindEvent(events, id) < |events|;
      events := Filter(events, NotWithId(id));
      attendees := Filter(attendees, NotOfEvent(id));
    }
  }

  /** Overwriting one event's columns keeps every row's id: the same ids
      are present, and distinct rows still carry distinct ids. */
  lemma UpdateKeepsIds(events: seq<EventRow>, id: int, data: EventPayload, now: int)
    requires FitsEventColumns(data)
    requires forall e1, e2 :: e1 in events && e2 in events && e1.id == e2.id ==> e1 == e2
    ensures forall e :: e in UpdateRows(events, id, data, now) ==> HasEvent(events, e.id)
    ensures forall x :: HasEvent(events, x) ==> HasEvent(UpdateRows(events, id, data, now), x)
    ensures forall e1, e2 ::
      (e1 in UpdateRows(events, id, data, now) && e2 in UpdateRows(events, id, data, now) && e1.id == e2.id)
      ==> e1 == e2
  {
    var r := UpdateRows(events, id, data, now);
    forall e | e in r ensures HasEvent(events, e.id) {
      var i :| 0 <= i < |r| && r[i] == e;
      assert events[i] in events;
    }
    forall x | HasEvent(events, x) ensures HasEvent(r, x) {
      var e :| e in events && e.id == x;
      var i :| 0 <= i < |events| && events[i] == e;
      assert r[i] in r;
    }
    forall e1, e2 | e1 in r && e2 in r && e1.id == e2.id ensures e1 == e2 {
      var i :| 0 <= i < |r| && r[i] == e1;
      var j :| 0 <= j < |r| && r[j] == e2;
      assert events[i] in events && events[j] in events;
    }
  }
}

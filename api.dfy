/** The REST endpoints of the server (backend/index.js): request validation
    for new events, the mapping from what a query returned to a status code
    and body, and the redirect that forces HTTPS in production. */
module Api {
  import opened Common
  import opened Text
  import opened Store

  // ---- validateEventData ----

  const TitleRequired := "Event title is required"
  const DateRequired := "Event date is required"
  const TimeRequired := "Event time is required"
  const LocationRequired := "Event location is required"
  const MaxAttendeesRange := "Max attendees must be between 1 and 1000"

  /** `!s || s.trim().length === 0`: missing, or white space only. */
  predicate MissingOrBlank(s: Option<string>)
  {
    s.None? || IsBlank(s.value)
  }

  /** A string trims to nothing exactly when it is white space only. */
  lemma TrimsToNothing(s: string)
    ensures Trim(s) == [] <==> IsBlank(s)
  {
  }

  /** `!s` for a string. */
  predicate Falsy(s: Option<string>)
  {
    s.None? || s.value == []
  }

  /** `n && (n < 1 || n > 1000)`: zero and a missing value are not checked. */
  predicate OutOfRange(n: Option<int>)
  {
    n.Some? && n.value != 0 && (n.value < 1 || n.value > 1000)
  }

  /** The validator's five checks, in the order it makes them. */
  datatype Check = TitleCheck | DateCheck | TimeCheck | LocationCheck | CapacityCheck

  function Position(c: Check): nat
  {
    match c
    case TitleCheck => 0
    case DateCheck => 1
    case TimeCheck => 2
    case LocationCheck => 3
    case CapacityCheck => 4
  }

  function Message(c: Check): string
  {
    match c
    case TitleCheck => TitleRequired
    case DateCheck => DateRequired
    case TimeCheck => TimeRequired
    case LocationCheck => LocationRequired
    case CapacityCheck => MaxAttendeesRange
  }

  /** Whether a check fails for the request body. */
  predicate Fails(data: EventPayload, c: Check)
  {
    match c
    case TitleCheck => MissingOrBlank(data.title)
    case DateCheck => Falsy(data.date)
    case TimeCheck => Falsy(data.time)
    case LocationCheck => MissingOrBlank(data.location)
    case CapacityCheck => OutOfRange(data.maxAttendees)
  }

  /** Checks in strictly increasing order: the fixed order, no repeats. */
  predicate InCheckOrder(cs: seq<Check>)
  {
    forall i, j :: 0 <= i < j < |cs| ==> Position(cs[i]) < Position(cs[j])
  }

  /** The checks `validateEventData` finds failing, in the order it makes
      them: each `if` pushes its message onto the list. */
  function FailingChecks(data: EventPayload): (cs: seq<Check>)
    ensures |cs| <= 5
  {
    (if MissingOrBlank(data.title) then [TitleCheck] else [])
    + (if Falsy(data.date) then [DateCheck] else [])
    + (if Falsy(data.time) then [TimeCheck] else [])
    + (if MissingOrBlank(data.location) then [LocationCheck] else [])
    + (if OutOfRange(data.maxAttendees) then [CapacityCheck] else [])
  }

  /** Every failing check is found, and only failing checks. */
  lemma FailingChecksExactly(data: EventPayload, c: Check)
    ensures c in FailingChecks(data) <==> Fails(data, c)
  {
  }

  /** The checks come in the fixed order title, date, time, location,
      capacity, so none is reported twice. */
  lemma FailingChecksInOrder(data: EventPayload)
    ensures InCheckOrder(FailingChecks(data))
  {
  }

  /** `validateEventData`: the messages of the failing checks, in order. The
      list is empty exactly when title and location are non-blank, date and
      time are non-empty, and the capacity is missing, zero or within
      1..1000. */
  function ValidateEventData(data: EventPayload): (errors: seq<string>)
    ensures |errors| == |FailingChecks(data)|
    ensures forall i :: 0 <= i < |errors| ==> errors[i] == Message(FailingChecks(data)[i])
    ensures errors == [] <==>
      && data.title.Some? && !IsBlank(data.title.value)
      && data.date.Some? && data.date.value != []
      && data.time.Some? && data.time.value != []
      && data.location.Some? && !IsBlank(data.location.value)
      && (data.maxAttendees.None? || 0 <= data.maxAttendees.value <= 1000)
  {
    MapSeq(FailingChecks(data), Message)
  }

  /** Distinct checks report distinct messages. */
  lemma MessagesDistinct(a: Check, b: Check)
    requires a != b
    ensures Message(a) != Message(b)
  {
    assert |Message(LocationCheck)| == 26 && |Message(CapacityCheck)| == 40;
    assert |Message(TitleCheck)| == 23 && |Message(DateCheck)| == 22 == |Message(TimeCheck)|;
    assert Message(DateCheck)[6] != Message(TimeCheck)[6];
  }

  /** A message is reported exactly when its check fails. */
  lemma {:induction false} ReportedIffFails(data: EventPayload, c: Check)
    ensures Message(c) in ValidateEventData(data) <==> Fails(data, c)
  {
    var cs := FailingChecks(data);
    var errors := ValidateEventData(data);
    FailingChecksExactly(data, c);
    if Fails(data, c) {
      var i :| 0 <= i < |cs| && cs[i] == c;
      assert errors[i] == Message(c);
    }
    if Message(c) in errors {
      var i :| 0 <= i < |errors| && errors[i] == Message(c);
      if cs[i] != c {
        MessagesDistinct(cs[i], c);
      }
    }
  }

  /** A request that passes validation fills every NOT NULL column, so
      creating its event cannot fail. */
  lemma {:induction false} AcceptedFitsColumns(data: EventPayload)
    requires ValidateEventData(data) == []
    ensures FitsEventColumns(data)
  {
  }

  /** A capacity of 0 is falsy and so never reported. */
  lemma {:induction false} ZeroCapacityNotChecked(data: EventPayload)
    requires data.maxAttendees == Some(0)
    ensures MaxAttendeesRange !in ValidateEventData(data)
  {
    ReportedIffFails(data, CapacityCheck);
  }

  /** Date and time are only checked for presence: white space passes there,
      while a white-space title is reported. */
  lemma {:induction false} BlankDateAccepted(data: EventPayload)
    requires data.title == Some(" ") && data.date == Some(" ") && data.time == Some(" ")
    ensures TitleRequired in ValidateEventData(data)
    ensures DateRequired !in ValidateEventData(data) && TimeRequired !in ValidateEventData(data)
  {
    ReportedIffFails(data, TitleCheck);
    ReportedIffFails(data, DateCheck);
    ReportedIffFails(data, TimeCheck);
  }

  // ---- Responses ----

  datatype Body =
    | EventJson(event: EventView)
    | EventListJson(events: seq<EventView>)
    | ErrorJson(error: string)
    | ValidationErrorJson(error: string, details: seq<string>)
    | MessageJson(message: string)

  datatype Response = Response(status: int, body: Body)

  const NotFound := Response(404, ErrorJson("Event not found"))

  /** The largest value of a PostgreSQL `integer` (the type of `SERIAL`). */
  const MaxInteger := 2147483647

  /** How the database reads the `:id` path parameter as an integer: a
      string of digits within range, or a query error. */
  function ParseId(param: string): (id: Option<int>)
    ensures id.Some? <==> IsDigits(param) && DigitsValue(param) <= MaxInteger
    ensures id.Some? ==> id.value == DigitsValue(param) && 0 <= id.value <= MaxInteger
    ensures !IsDigits(param) ==> id.None?
  {
    if IsDigits(param) && DigitsValue(param) <= MaxInteger then Some(DigitsValue(param)) else None
  }

  /** An id written out in decimal reads back as the same id. */
  lemma {:induction false} ParseIdOfNatToString(id: nat)
    requires id <= MaxInteger
    ensures ParseId(NatToString(id)) == Some(id)
  {
    DigitsValueOfNatToString(id);
  }

  /** `GET /api/events`: every event, newest first. */
  function GetEventsRoute(store: EventStore): (resp: Response)
    reads store
    ensures resp.status == 200 && resp.body.EventListJson?
    ensures resp.body.events == store.GetAllEvents()
  {
    Response(200, EventListJson(store.GetAllEvents()))
  }

  /** `GET /api/events/:id`: the event, 404 when the query finds none, 500
      when the parameter is not an integer. */
  function GetEventRoute(store: EventStore, idParam: string): (resp: Response)
    reads store
    ensures ParseId(idParam).None? ==> resp == Response(500, ErrorJson("Failed to fetch event"))
    ensures resp == NotFound <==> ParseId(idParam).Some? && !HasEvent(store.events, ParseId(idParam).value)
    ensures resp.status == 200 <==> ParseId(idParam).Some? && HasEvent(store.events, ParseId(idParam).value)
    ensures resp.status == 200 ==>
      resp.body.EventJson? && store.GetEventById(ParseId(idParam).value) == Some(resp.body.event)
  {
    match ParseId(idParam)
    case None => Response(500, ErrorJson("Failed to fetch event"))
    case Some(id) =>
      match store.GetEventById(id)
      case None => NotFound
      case Some(v) => Response(200, EventJson(v))
  }

  /** `POST /api/events`: a request that fails validation gets 400 with the
      messages as details and creates nothing; any other gets 201 and the new
      event. */
  method PostEventRoute(store: EventStore, body: EventPayload, now: int) returns (resp: Response)
    requires store.Valid()
    modifies store
    ensures store.Valid()
    ensures ValidateEventData(body) != [] ==>
      && resp == Response(400, ValidationErrorJson("Validation failed", ValidateEventData(body)))
      && store.events == old(store.events) && store.attendees == old(store.attendees)
      && store.nextId == old(store.nextId)
    ensures ValidateEventData(body) == [] ==>
      && resp.status == 201 && resp.body.EventJson?
      && resp.body.event.id == old(store.nextId)
      && resp.body.event.attendees == []
      && store.events == old(store.events) + [EventRow(old(store.nextId), body.title.value, body.description,
                                                       body.date.value, body.time.value, body.location.value,
                                                       body.maxAttendees, Some(Or(body.status, "planned")), now, now)]
      && store.attendees == old(store.attendees) && store.nextId == old(store.nextId) + 1
      && resp.body.event.title == body.title.value && resp.body.event.date == body.date.value
      && resp.body.event.time == body.time.value && resp.body.event.location == body.location.value
      && resp.body.event.status == Some(Or(body.status, "planned"))
      && store.GetEventById(old(store.nextId)) == Some(resp.body.event)
  {
    var errors := ValidateEventData(body);
    if errors != [] {
      return Response(400, ValidationErrorJson("Validation failed", errors));
    }
    AcceptedFitsColumns(body);
    var created := store.CreateEvent(body, now);
    resp := Response(201, EventJson(created.view));
  }

  /** `PUT /api/events/:id`: no validation; the event as updated, 404 when the
      id has no event, 500 when the parameter is not an integer or a query
      fails. */
  method PutEventRoute(store: EventStore, idParam: string, body: EventPayload, now: int)
    returns (resp: Response)
    requires store.Valid()
    modifies store
    ensures store.Valid() && store.nextId == old(store.nextId)
    ensures ParseId(idParam).None? ==>
      && resp == Response(500, ErrorJson("Failed to update event"))
      && store.events == old(store.events) && store.attendees == old(store.attendees)
    ensures resp == NotFound <==> ParseId(idParam).Some? && !HasEvent(old(store.events), ParseId(idParam).value)
    ensures resp == NotFound ==> store.events == old(store.events) && store.attendees == old(store.attendees)
    ensures resp.status == 200 ==>
      && resp.body.EventJson? && ParseId(idParam).Some? && FitsEventColumns(body)
      && store.GetEventById(ParseId(idParam).value) == Some(resp.body.event)
    ensures ParseId(idParam).Some? && HasEvent(old(store.events), ParseId(idParam).value) ==>
      (resp.status == 200 <==>
         FitsEventColumns(body)
         && (body.attendees.None? || InsertablePrefix(body.attendees.value) == |body.attendees.value|))
    ensures ParseId(idParam).Some? && HasEvent(old(store.events), ParseId(idParam).value)
            && FitsEventColumns(body) ==>
      var id := ParseId(idParam).value;
      && store.events == UpdateRows(old(store.events), id, body, now)
      && (body.attendees.None? ==> store.attendees == old(store.attendees))
      && (body.attendees.Some? ==>
            store.attendees == Filter(old(store.attendees), NotOfEvent(id))
                               + NewRows(id, body.attendees.value[..InsertablePrefix(body.attendees.value)]))
    ensures ParseId(idParam).Some? && HasEvent(old(store.events), ParseId(idParam).value)
            && !FitsEventColumns(body) ==>
      resp == Response(500, ErrorJson("Failed to update event"))
      && store.events == old(store.events) && store.attendees == old(store.attendees)
    ensures resp.status in {200, 404, 500}
  {
    var id := ParseId(idParam);
    if id.None? {
      return Response(500, ErrorJson("Failed to update event"));
    }
    var updated := store.UpdateEvent(id.value, body, now);
    match updated
    case Stored(v) => resp := Response(200, EventJson(v));
    case NoSuchEvent => resp := NotFound;
    case DbError => resp := Response(500, ErrorJson("Failed to update event"));
  }

  /** `DELETE /api/events/:id`: a confirmation when a row was deleted, 404
      when none had the id, 500 when the parameter is not an integer. */
  method DeleteEventRoute(store: EventStore, idParam: string) returns (resp: Response)
    requires store.Valid()
    modifies store
    ensures store.Valid()
    ensures ParseId(idParam).None? ==>
      && resp == Response(500, ErrorJson("Failed to delete event"))
      && store.events == old(store.events) && store.attendees == old(store.attendees)
    ensures ParseId(idParam).Some? ==>
      && (resp == NotFound <==> !HasEvent(old(store.events), ParseId(idParam).value))
      && (resp != NotFound <==> resp == Response(200, MessageJson("Event deleted successfully")))
      && store.GetEventById(ParseId(idParam).value) == None
      && store.events == Filter(old(store.events), NotWithId(ParseId(idParam).value))
      && store.attendees == Filter(old(store.attendees), NotOfEvent(ParseId(idParam).value))
      && (forall other :: other != ParseId(idParam).value ==>
            RowsOf(store.attendees, other) == RowsOf(old(store.attendees), other))
  {
    var id := ParseId(idParam);
    if id.None? {
      return Response(500, ErrorJson("Failed to delete event"));
    }
    var deleted := store.DeleteEvent(id.value);
    resp := if deleted then Response(200, MessageJson("Event deleted successfully")) else NotFound;
  }

  // ---- Forcing HTTPS ----

  datatype HttpsRouting = Redirect(status: int, location: string) | Next

  /** In production, a request not forwarded as `https` is redirected with 301
      to the same host and path under `https://` and goes no further. */
  function ForceHttps(production: bool, forwardedProto: Option<string>, host: Option<string>, url: string)
    : (r: HttpsRouting)
    ensures r.Redirect? <==> production && forwardedProto != Some("https")
    ensures r.Redirect? ==> r.status == 301 && StartsWith(r.location, "https://")
    ensures r.Redirect? ==> r.location[8..] == Interpolate(host) + url
  {
    if production && forwardedProto != Some("https") then
      Redirect(301, "https://" + Interpolate(host) + url)
    else Next
  }
}

/** The form that creates or edits an event
    (frontend/src/components/EventForm.js): the date shown in the date
    input, the form state and its loading, the permission it asks for, and
    the submit rules (at most three events, a fixed six-field body). Server
    replies are parameters. */
module EventForm {
  import opened Common
  import opened Text
  import Store
  import Api
  import UserSession

  /** `formatDateForInput`: nothing for a missing or empty value, the part
      before the first `T` of an ISO date-time, any other text unchanged. */
  function FormatDateForInput(dateString: Option<string>): (r: string)
    ensures dateString.None? || dateString.value == [] ==> r == []
    ensures dateString.Some? ==> StartsWith(dateString.value, r)
    ensures 'T' !in r
    ensures dateString.Some? && 'T' !in dateString.value ==> r == dateString.value
    ensures dateString.Some? && 'T' in dateString.value ==> dateString.value[|r|] == 'T'
  {
    if dateString.None? || dateString.value == [] then []
    else
      var s := dateString.value;
      var i := IndexOfChar(s, 'T');
      assert 'T' !in s[..i] by {
        forall j | 0 <= j < i ensures s[..i][j] != 'T' {
        }
      }
      assert i == |s| ==> s[..i] == s;
      s[..i]
  }

  /** A date already cut for the input is left as it is. */
  lemma FormatDateIdempotent(dateString: Option<string>)
    ensures FormatDateForInput(Some(FormatDateForInput(dateString))) == FormatDateForInput(dateString)
  {
  }

  /** The six inputs of the form. */
  datatype FormData = FormData(
    title: string,
    description: string,
    date: string,
    time: string,
    location: string,
    status: string)

  const EmptyForm := FormData("", "", "", "", "", "planned")

  datatype Field = TitleField | DescriptionField | DateField | TimeField | LocationField | StatusField

  /** `{ ...prev, [name]: value }`: the named input takes the value, the
      others are kept. */
  function WithField(f: FormData, name: Field, value: string): (r: FormData)
    ensures name == TitleField ==> r == f.(title := value)
    ensures name == DescriptionField ==> r == f.(description := value)
    ensures name == DateField ==> r == f.(date := value)
    ensures name == TimeField ==> r == f.(time := value)
    ensures name == LocationField ==> r == f.(location := value)
    ensures name == StatusField ==> r == f.(status := value)
  {
    match name
    case TitleField => f.(title := value)
    case DescriptionField => f.(description := value)
    case DateField => f.(date := value)
    case TimeField => f.(time := value)
    case LocationField => f.(location := value)
    case StatusField => f.(status := value)
  }

  /** An event as the edit screen fetched it; any field may be missing. */
  datatype LoadedEvent = LoadedEvent(
    title: Option<string>,
    description: Option<string>,
    date: Option<string>,
    time: Option<string>,
    location: Option<string>,
    status: Option<string>)

  /** The form filled from a fetched event: missing text becomes empty, a
      missing status becomes `planned`, and the date is cut for the input. */
  function FormFromEvent(e: LoadedEvent): (f: FormData)
    ensures f.status == (if e.status.Some? && e.status.value != [] then e.status.value else "planned")
    ensures f.title == (if e.title.Some? then e.title.value else [])
    ensures f.location == (if e.location.Some? then e.location.value else [])
    ensures f.description == (if e.description.Some? then e.description.value else [])
    ensures f.time == (if e.time.Some? then e.time.value else [])
    ensures f.date == FormatDateForInput(e.date) && 'T' !in f.date
  {
    FormData(Or(e.title, ""), Or(e.description, ""), FormatDateForInput(e.date),
             Or(e.time, ""), Or(e.location, ""), Or(e.status, "planned"))
  }

  /** The body both the create and the update requests carry: exactly the
      six inputs, never a capacity and never an attendee list. */
  function PayloadOf(f: FormData): (p: Store.EventPayload)
    ensures p.maxAttendees.None? && p.attendees.None?
    ensures p.title == Some(f.title) && p.description == Some(f.description)
    ensures p.date == Some(f.date) && p.time == Some(f.time)
    ensures p.location == Some(f.location) && p.status == Some(f.status)
    ensures Store.FitsEventColumns(p)
  {
    Store.EventPayload(Some(f.title), Some(f.description), Some(f.date), Some(f.time),
                       Some(f.location), None, Some(f.status), None)
  }

  /** The server accepts a submitted form exactly when title and location
      are not blank and date and time are not empty. */
  lemma {:induction false} FormPayloadAccepted(f: FormData)
    ensures Api.ValidateEventData(PayloadOf(f)) == [] <==>
      !IsBlank(f.title) && f.date != [] && f.time != [] && !IsBlank(f.location)
  {
    var p := PayloadOf(f);
    assert p.maxAttendees.None?;
  }

  /** Saving an edited event through the form clears its capacity, since the
      update overwrites every column and the body carries none. */
  lemma EditClearsCapacity(e: Store.EventRow, f: FormData, now: int)
    ensures Store.Overwrite(e, PayloadOf(f), now).maxAttendees == None
    ensures Store.Overwrite(e, PayloadOf(f), now).title == f.title
  {
  }

  /** The request a submit sends. */
  datatype Request = CreateRequest(body: Store.EventPayload) | UpdateRequest(eventId: string, body: Store.EventPayload)

  datatype LoadReply = Loaded(event: LoadedEvent) | LoadFailed
  datatype CountReply = Count(n: nat) | CountFailed
  datatype SaveReply = Saved | SaveFailed

  const LimitMessage := "Cannot create more events. Maximum of 3 events allowed."

  /** The state of one `EventForm`. */
  class EventFormView {
    /** The `eventId` prop; the form edits when it holds a non-empty id. */
    const eventId: Option<string>
    var formData: FormData
    var loading: bool
    var error: Option<string>
    var success: Option<string>
    var eventCount: nat

    constructor (eventId: Option<string>)
      ensures this.eventId == eventId
      ensures formData == EmptyForm && !loading && error == None && success == None && eventCount == 0
    {
      this.eventId := eventId;
      formData := EmptyForm;
      loading := false;
      error := None;
      success := None;
      eventCount := 0;
    }

    /** `!!eventId`. */
    predicate IsEditing()
      reads this
    {
      eventId.Some? && eventId.value != []
    }

    /** The permission the form asks for: editing when editing, creating
        otherwise; both come down to being an administrator, and without it
        the form sends its user back to the list. */
    function HasPermission(user: Option<UserSession.User>): (b: bool)
      reads this
      ensures b <==> UserSession.IsAdmin(user)
    {
      if IsEditing() then UserSession.CanEdit(user) else UserSession.CanCreate(user)
    }

    /** `loadData`: an edit form takes the fetched event, or the message
        `Failed to load event`; a create form takes the number of events,
        or zero when they cannot be counted. */
    method LoadData(eventReply: LoadReply, countReply: CountReply)
      modifies this
      ensures IsEditing() && eventReply.Loaded? ==>
        formData == FormFromEvent(eventReply.event) && error == old(error)
      ensures IsEditing() && eventReply.LoadFailed? ==>
        formData == old(formData) && error == Some("Failed to load event")
      ensures IsEditing() ==> eventCount == old(eventCount) && !loading
      ensures !IsEditing() ==>
        eventCount == (if countReply.Count? then countReply.n else 0) &&
        formData == old(formData) && error == old(error) && loading == old(loading)
      ensures success == old(success)
    {
      if IsEditing() {
        loading := true;
        if eventReply.Loaded? {
          formData := FormFromEvent(eventReply.event);
        } else {
          error := Some("Failed to load event");
        }
        loading := false;
      } else {
        eventCount := if countReply.Count? then countReply.n else 0;
      }
    }

    /** `handleChange`: one input takes the typed value. */
    method HandleChange(name: Field, value: string)
      modifies this
      ensures formData == WithField(old(formData), name, value)
      ensures loading == old(loading) && error == old(error) && success == old(success)
      ensures eventCount == old(eventCount)
    {
      formData := WithField(formData, name, value);
    }

    /** `handleSubmit`: a fourth event is refused before anything is sent;
        otherwise the six inputs go out as a create or an update, and the
        reply sets the success or the error message. `done` says whether
        the form hands control back to the list. */
    method HandleSubmit(reply: SaveReply) returns (sent: Option<Request>, done: bool)
      modifies this
      ensures !IsEditing() && old(eventCount) >= 3 ==>
        sent == None && !done && error == Some(LimitMessage) && success == None
      ensures !(!IsEditing() && old(eventCount) >= 3) ==>
        sent == Some(if IsEditing() then UpdateRequest(eventId.value, PayloadOf(formData))
                     else CreateRequest(PayloadOf(formData)))
      ensures !(!IsEditing() && old(eventCount) >= 3) && reply.Saved? ==>
        done && error == None &&
        success == Some(if IsEditing() then "Event updated successfully!" else "Event created successfully!")
      ensures !(!IsEditing() && old(eventCount) >= 3) && reply.SaveFailed? ==>
        !done && success == None &&
        error == Some(if IsEditing() then "Failed to update event" else "Failed to create event")
      ensures sent.Some? ==> sent.value.body.attendees.None? && sent.value.body.maxAttendees.None?
      ensures !loading && formData == old(formData) && eventCount == old(eventCount)
    {
      loading := true;
      error := None;
      success := None;
      if !IsEditing() && eventCount >= 3 {
        error := Some(LimitMessage);
        loading := false;
        return None, false;
      }
      var body := PayloadOf(formData);
      if IsEditing() {
        sent := Some(UpdateRequest(eventId.value, body));
      } else {
        sent := Some(CreateRequest(body));
      }
      if reply.Saved? {
        success := Some(if IsEditing() then "Event updated successfully!" else "Event created successfully!");
        done := true;
      } else {
        error := Some(if IsEditing() then "Failed to update event" else "Failed to create event");
        done := false;
      }
      loading := false;
    }
  }
}

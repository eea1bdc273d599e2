/** How the event screen's whole-list update lands in the store: the client
    sends the event with its new attendee list as the body of the update
    request (frontend/src/components/EventDetail.js), and the store replaces
    the event's attendee rows with that list (backend/database.js). */
module EndToEnd {
  import opened Common
  import Attendance
  import Store
  import UserSession

  /** An entry of the client's list as the server reads it: an object gives
      its fields; a bare-name entry is a JSON string and has none. */
  function ToInput(a: Attendance.Attendee): (i: Store.AttendeeInput)
    ensures Store.FitsAttendeeColumns(i) <==> a.Full?
    ensures a.Full? ==> i.name == Some(a.name) && i.phone == Some(a.phone) && i.joinOrder == Some(a.joinOrder)
  {
    match a
    case Legacy(_) => Store.AttendeeInput(None, None, None, None, None, None)
    case Full(name, team, phone, role, joinedAt, joinOrder) =>
      Store.AttendeeInput(Some(name), Some(team), Some(phone), Some(role), joinedAt, Some(joinOrder))
  }

  /** The body of the update request: the event as the screen holds it. */
  function ToPayload(e: Attendance.ClientEvent): (p: Store.EventPayload)
    ensures p.attendees == Some(MapSeq(e.attendees, ToInput))
    ensures p.title == e.title && p.maxAttendees == e.maxAttendees && p.status == e.status
  {
    Store.EventPayload(e.title, e.description, e.date, e.time, e.location, e.maxAttendees,
                       e.status, Some(MapSeq(e.attendees, ToInput)))
  }

  /** The store inserts a list up to its first bare-name entry: a list of
      objects goes in whole, and a bare-name entry at position `k` after
      objects only stops the insertion there. */
  lemma InsertedUpToFirstLegacy(list: seq<Attendance.Attendee>, k: nat)
    requires k <= |list|
    requires forall j :: 0 <= j < k ==> list[j].Full?
    requires k < |list| ==> list[k].Legacy?
    ensures Store.InsertablePrefix(MapSeq(list, ToInput)) == k
  {
  }

  /** A successful join on a list of objects yields a list the store takes
      whole, and the new attendee's row keeps the client's join order, one
      past the earlier entries. */
  lemma JoinStoredWhole(attendees: seq<Attendance.Attendee>, maxAttendees: Option<int>,
                        guest: Attendance.GuestInfo, user: Option<UserSession.User>, now: int, id: int)
    requires forall j :: 0 <= j < |attendees| ==> attendees[j].Full?
    requires Attendance.Join(attendees, maxAttendees, guest, user, now).Joined?
    ensures var r := Attendance.Join(attendees, maxAttendees, guest, user, now);
      var inputs := MapSeq(r.attendees, ToInput);
      && Store.InsertablePrefix(inputs) == |r.attendees|
      && Store.NewRow(id, inputs[|attendees|], |attendees|).joinOrder == |attendees| + 1
  {
    var r := Attendance.Join(attendees, maxAttendees, guest, user, now);
    assert r.attendees == attendees + [r.added];
    assert r.added.Full? by {
      assert r.added == Attendance.NewAttendee(guest, user, |attendees|, now);
    }
    InsertedUpToFirstLegacy(r.attendees, |r.attendees|);
  }
}

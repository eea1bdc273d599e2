/** Joining, leaving and removing attendees on the event detail screen of the
    web client (frontend/src/components/EventDetail.js). The screen holds the
    event it loaded, checks a join request in a fixed order, and on success
    sends the whole event back to the server with the new attendee list. */
module Attendance {
  import opened Common
  import opened Text
  import opened UserSession

  /** An entry of an event's attendee list. Old data stores a bare name
      string; newer entries are records. */
  datatype Attendee =
    | Legacy(name: string)
    | Full(name: string, team: string, phone: string, role: string,
           joinedAt: Option<int>, joinOrder: int)

  /** `attendee.phone`: a bare-name entry is a string and has none. */
  function PhoneOf(a: Attendee): Option<string>
  {
    if a.Full? then Some(a.phone) else None
  }

  /** `attendee.name`: likewise undefined on a bare-name entry. */
  function NameOf(a: Attendee): Option<string>
  {
    if a.Full? then Some(a.name) else None
  }

  /** The event as the screen holds it: the server's record, of which the
      handlers read the capacity and the attendee list and send back the rest
      unchanged. */
  datatype ClientEvent = ClientEvent(
    title: Option<string>,
    description: Option<string>,
    date: Option<string>,
    time: Option<string>,
    location: Option<string>,
    maxAttendees: Option<int>,
    status: Option<string>,
    attendees: seq<Attendee>)

  /** The join form's three text inputs. */
  datatype GuestInfo = GuestInfo(name: string, team: string, phone: string)

  const EmptyGuestInfo := GuestInfo("", "", "")

  /** The hard limit on any event's attendees. */
  const MaxCapacity := 20

  /** `Math.min(event.maxAttendees || 20, 20)`: a missing or zero limit means
      20, and no limit exceeds 20. */
  function EffectiveCapacity(maxAttendees: Option<int>): (c: int)
    ensures c <= MaxCapacity
    ensures c == MaxCapacity <==>
      maxAttendees.None? || maxAttendees.value == 0 || maxAttendees.value >= MaxCapacity
    ensures c < MaxCapacity ==> maxAttendees == Some(c)
  {
    var limit := if maxAttendees.Some? && maxAttendees.value != 0 then maxAttendees.value else MaxCapacity;
    if limit < MaxCapacity then limit else MaxCapacity
  }

  // ---- Joining ----

  /** The name the join form is pre-filled with for a signed-in user without
      a phone: `user.username ? "<username> (Admin)" : user.name || 'Admin User'`. */
  function PrefillName(user: User): (name: string)
    ensures name != []
    ensures user.username.Some? && user.username.value != [] ==>
      name == user.username.value + " (Admin)"
  {
    if user.username.Some? && user.username.value != [] then user.username.value + " (Admin)"
    else Or(user.name, "Admin User")
  }

  /** The record a join request builds from the form. Name and phone are
      trimmed, the team is taken as typed. A signed-in user whose name field is
      blank falls back to their username, their name, then "Admin User", and
      keeps their own role (default "admin"); a guest gets role "guest". The
      join order is one more than the current number of entries. */
  function NewAttendee(guest: GuestInfo, user: Option<User>, count: nat, now: int): (a: Attendee)
    ensures a.Full? && a.joinOrder == count + 1 && a.joinedAt == Some(now)
    ensures a.team == guest.team && a.phone == Trim(guest.phone)
    ensures !IsBlank(guest.name) ==> a.name == Trim(guest.name)
    ensures user.None? ==> a.name == Trim(guest.name) && a.role == "guest"
    ensures user.Some? ==> a.name != [] && a.role == Or(user.value.role, "admin")
  {
    var name := Trim(guest.name);
    if user.None? then
      Full(name, guest.team, Trim(guest.phone), "guest", Some(now), count + 1)
    else
      var u := user.value;
      var fullName := if name != [] then name else Or(u.username, Or(u.name, "Admin User"));
      Full(fullName, guest.team, Trim(guest.phone), Or(u.role, "admin"), Some(now), count + 1)
  }

  /** The labels of the empty required fields, in form order. */
  function MissingFields(a: Attendee): (fields: seq<string>)
    requires a.Full?
    ensures fields == [] <==> a.name != [] && a.team != [] && a.phone != []
    ensures "Name" in fields <==> a.name == []
    ensures "Team" in fields <==> a.team == []
    ensures "Phone" in fields <==> a.phone == []
    ensures IsSubsequence(fields, ["Name", "Team", "Phone"])
  {
    (if a.name == [] then ["Name"] else []) +
    (if a.team == [] then ["Team"] else []) +
    (if a.phone == [] then ["Phone"] else [])
  }

  /** A character `[\d\s\-()]` accepts. */
  predicate IsPhoneChar(c: char)
  {
    IsDigit(c) || IsSpace(c) || c == '-' || c == '(' || c == ')'
  }

  predicate IsPhoneBody(s: string)
  {
    |s| >= 10 && forall i :: 0 <= i < |s| ==> IsPhoneChar(s[i])
  }

  /** `/^[+]?[\d\s\-()]{10,}$/.test(phone)`: an optional '+' and then at
      least ten digits, spaces, hyphens or parentheses. */
  predicate IsValidPhone(phone: string)
  {
    IsPhoneBody(phone) || (|phone| > 0 && phone[0] == '+' && IsPhoneBody(phone[1..]))
  }

  /** Some entry of the list carries this phone. */
  predicate PhoneTaken(attendees: seq<Attendee>, phone: string)
  {
    exists i :: 0 <= i < |attendees| && PhoneOf(attendees[i]) == Some(phone)
  }

  /** No two record entries share a phone. */
  predicate UniquePhones(attendees: seq<Attendee>)
  {
    forall i, j :: 0 <= i < j < |attendees| && attendees[i].Full? && attendees[j].Full? ==>
      attendees[i].phone != attendees[j].phone
  }

  datatype JoinError =
    | MissingRequired(fields: seq<string>)
    | InvalidPhone
    | AlreadyRegistered(phone: string)
    | EventFull(capacity: int)

  datatype JoinResult = Joined(attendees: seq<Attendee>, added: Attendee) | Rejected(error: JoinError)

  /** `handleJoinEvent`'s checks, in order, each stopping the join: the
      required fields, the phone's shape, the phone not yet registered, and a
      free place. */
  function Join(attendees: seq<Attendee>, maxAttendees: Option<int>, guest: GuestInfo,
                user: Option<User>, now: int): (r: JoinResult)
    ensures r.Joined? <==>
      var a := NewAttendee(guest, user, |attendees|, now);
      && MissingFields(a) == []
      && IsValidPhone(a.phone)
      && !PhoneTaken(attendees, a.phone)
      && |attendees| < EffectiveCapacity(maxAttendees)
    ensures r.Joined? ==>
      && r.added == NewAttendee(guest, user, |attendees|, now)
      && r.attendees == attendees + [r.added]
      && r.attendees[..|attendees|] == attendees
      && r.added.joinOrder == |attendees| + 1
      && |r.attendees| <= EffectiveCapacity(maxAttendees)
      && (UniquePhones(attendees) ==> UniquePhones(r.attendees))
  {
    var a := NewAttendee(guest, user, |attendees|, now);
    var missing := MissingFields(a);
    var capacity := EffectiveCapacity(maxAttendees);
    if missing != [] then Rejected(MissingRequired(missing))
    else if !IsValidPhone(a.phone) then Rejected(InvalidPhone)
    else if PhoneTaken(attendees, a.phone) then Rejected(AlreadyRegistered(a.phone))
    else if |attendees| >= capacity then Rejected(EventFull(capacity))
    else
      var next := attendees + [a];
      assert forall i :: 0 <= i < |attendees| ==> next[i] == attendees[i];
      Joined(next, a)
  }

  /** Each rejection names the first check that fails: missing fields, then
      the phone's shape, then a phone already on the list, then a full event. */
  lemma JoinChecksInOrder(attendees: seq<Attendee>, maxAttendees: Option<int>, guest: GuestInfo,
                          user: Option<User>, now: int)
    ensures var a := NewAttendee(guest, user, |attendees|, now);
      var r := Join(attendees, maxAttendees, guest, user, now);
      && (r.Rejected? && r.error.MissingRequired? <==> MissingFields(a) != [])
      && (r == Rejected(InvalidPhone) <==> MissingFields(a) == [] && !IsValidPhone(a.phone))
      && (r.Rejected? && r.error.AlreadyRegistered? <==>
            MissingFields(a) == [] && IsValidPhone(a.phone) && PhoneTaken(attendees, a.phone))
      && (r.Rejected? && r.error.EventFull? <==>
            && MissingFields(a) == [] && IsValidPhone(a.phone) && !PhoneTaken(attendees, a.phone)
            && |attendees| >= EffectiveCapacity(maxAttendees))
      && (r.Rejected? && r.error.EventFull? ==> r.error.capacity == EffectiveCapacity(maxAttendees))
  {
  }

  /** A request with an empty name, team or phone (after trimming name and
      phone) is turned down for exactly those fields, before any other check. */
  lemma JoinRejectsMissingFields(attendees: seq<Attendee>, maxAttendees: Option<int>,
                                 guest: GuestInfo, user: Option<User>, now: int)
    requires (user.None? && IsBlank(guest.name)) || guest.team == [] || IsBlank(guest.phone)
    ensures var r := Join(attendees, maxAttendees, guest, user, now);
      && r.Rejected? && r.error.MissingRequired?
      && ("Team" in r.error.fields <==> guest.team == [])
      && ("Phone" in r.error.fields <==> IsBlank(guest.phone))
  {
    var a := NewAttendee(guest, user, |attendees|, now);
    assert a.phone == [] <==> IsBlank(guest.phone);
  }

  /** The team is not trimmed: any non-empty team, one of only spaces
      included, passes the required-field check when name and phone are not
      blank. */
  lemma TeamNotTrimmed(attendees: seq<Attendee>, maxAttendees: Option<int>, guest: GuestInfo,
                       user: Option<User>, now: int)
    requires !IsBlank(guest.name) && !IsBlank(guest.phone) && guest.team != []
    ensures var r := Join(attendees, maxAttendees, guest, user, now);
      !(r.Rejected? && r.error.MissingRequired?)
  {
    var a := NewAttendee(guest, user, |attendees|, now);
    assert MissingFields(a) == [];
  }

  /** A signed-in user who presses "Join" with an untouched form is turned
      down: the form's team and phone are empty, whatever their profile holds. */
  lemma EmptyFormRejectedForSignedInUser(attendees: seq<Attendee>, maxAttendees: Option<int>,
                                         user: User, now: int)
    ensures Join(attendees, maxAttendees, EmptyGuestInfo, Some(user), now)
         == Rejected(MissingRequired(["Team", "Phone"]))
  {
    var a := NewAttendee(EmptyGuestInfo, Some(user), |attendees|, now);
    assert IsBlank(EmptyGuestInfo.phone);
    assert a.team == [] && a.phone == [] && a.name != [];
    assert MissingFields(a) == ["Team", "Phone"];
  }

  // ---- Leaving, removing, and being on the list ----

  /** `user.phone` is truthy. */
  predicate HasPhone(user: User)
  {
    user.phone.Some? && user.phone.value != []
  }

  /** `user.username` is truthy. */
  predicate HasUsername(user: User)
  {
    user.username.Some? && user.username.value != []
  }

  /** Whether `handleLeaveEvent` drops entry `a` for `user`: with a phone on
      the profile, the entries with that phone; otherwise the entries named
      like the username, the name, or "<username> (Admin)". */
  predicate LeaveDrops(user: User, a: Attendee)
  {
    if HasPhone(user) then PhoneOf(a) == user.phone
    else
      || NameOf(a) == user.username
      || NameOf(a) == user.name
      || NameOf(a) == Some(Interpolate(user.username) + " (Admin)")
  }

  /** The list after the signed-in user leaves. */
  function Leave(attendees: seq<Attendee>, user: User): (r: seq<Attendee>)
    ensures forall a :: a in r <==> a in attendees && !LeaveDrops(user, a)
    ensures IsSubsequence(r, attendees)
    ensures forall a :: !LeaveDrops(user, a) ==> multiset(r)[a] == multiset(attendees)[a]
  {
    Filter(attendees, a => !LeaveDrops(user, a))
  }

  /** `isUserAttending`: for a user with a phone, some entry has that phone;
      otherwise, for a user with a username, some entry carries one of the
      names leaving would match; nobody else is attending. */
  predicate IsUserAttending(attendees: seq<Attendee>, user: Option<User>)
  {
    if user.None? then false
    else
      var u := user.value;
      if HasPhone(u) then
        exists i :: 0 <= i < |attendees| && PhoneOf(attendees[i]) == u.phone
      else if HasUsername(u) then
        exists i :: 0 <= i < |attendees| &&
          (NameOf(attendees[i]) == u.username || NameOf(attendees[i]) == u.name ||
           NameOf(attendees[i]) == Some(u.username.value + " (Admin)"))
      else false
  }

  /** For a user identified by phone or username, being on the list and
      matching an entry that leaving drops are the same thing. */
  lemma AttendingIffSomeEntryDropped(attendees: seq<Attendee>, user: User)
    requires HasPhone(user) || HasUsername(user)
    ensures IsUserAttending(attendees, Some(user)) <==>
      exists i :: 0 <= i < |attendees| && LeaveDrops(user, attendees[i])
  {
  }

  /** After leaving, the user is no longer attending, and every entry that
      leaving does not match is still there. */
  lemma {:induction false} LeaveEndsAttendance(attendees: seq<Attendee>, user: User)
    ensures !IsUserAttending(Leave(attendees, user), Some(user))
    ensures forall a :: a in attendees && !LeaveDrops(user, a) ==> a in Leave(attendees, user)
  {
    var r := Leave(attendees, user);
    if HasPhone(user) || HasUsername(user) {
      AttendingIffSomeEntryDropped(r, user);
      assert forall i :: 0 <= i < |r| ==> r[i] in r && !LeaveDrops(user, r[i]);
    }
  }

  /** For a user identified by phone or username, leaving changes the list
      exactly when the user is attending. */
  lemma {:induction false} LeaveChangesIffAttending(attendees: seq<Attendee>, user: User)
    requires HasPhone(user) || HasUsername(user)
    ensures Leave(attendees, user) != attendees <==> IsUserAttending(attendees, Some(user))
  {
    AttendingIffSomeEntryDropped(attendees, user);
    var r := Leave(attendees, user);
    if IsUserAttending(attendees, Some(user)) {
      var i :| 0 <= i < |attendees| && LeaveDrops(user, attendees[i]);
      assert attendees[i] in attendees && attendees[i] !in r;
    } else {
      FilterAll(attendees, a => !LeaveDrops(user, a));
    }
  }

  /** Whether `handleRemoveAttendee` drops entry `a` when asked to remove
      `target`: a bare-name target drops the equal bare names; a record target
      drops the records with its phone and the bare names equal to its name. */
  predicate RemoveDrops(target: Attendee, a: Attendee)
  {
    if target.Legacy? then a == target
    else if a.Legacy? then a.name == target.name
    else a.phone == target.phone
  }

  /** The list after an administrator removes `target`. */
  function RemoveAttendee(attendees: seq<Attendee>, target: Attendee): (r: seq<Attendee>)
    ensures forall a :: a in r <==> a in attendees && !RemoveDrops(target, a)
    ensures IsSubsequence(r, attendees)
    ensures forall a :: !RemoveDrops(target, a) ==> multiset(r)[a] == multiset(attendees)[a]
    ensures target !in r
    ensures target.Full? ==> !PhoneTaken(r, target.phone)
  {
    var r := Filter(attendees, a => !RemoveDrops(target, a));
    forall i | 0 <= i < |r| ensures target.Full? ==> PhoneOf(r[i]) != Some(target.phone) {
      assert r[i] in r;
    }
    r
  }

  // ---- Join times ----

  datatype JoinTimeLabel = Unknown | JustNow | MinutesAgo(minutes: int) | HoursAgo(hours: int) | OnDate(joinTime: int)

  const MinuteMs := 60000
  const HourMs := 3600000
  const DayMs := 86400000

  /** `formatJoinTime`: the age of a join in whole minutes, shown as "Just
      now" under one minute, in minutes under an hour, in whole hours under a
      day, and as a date after that. */
  function FormatJoinTime(joinedAt: Option<int>, now: int): (l: JoinTimeLabel)
    ensures l == Unknown <==> joinedAt.None?
    ensures l == JustNow <==> joinedAt.Some? && now - joinedAt.value < MinuteMs
    ensures l.MinutesAgo? ==>
      1 <= l.minutes < 60 && l.minutes * MinuteMs <= now - joinedAt.value < (l.minutes + 1) * MinuteMs
    ensures l.HoursAgo? ==>
      1 <= l.hours < 24 && l.hours * HourMs <= now - joinedAt.value < (l.hours + 1) * HourMs
    ensures l.OnDate? <==> joinedAt.Some? && now - joinedAt.value >= DayMs
    ensures l.OnDate? ==> l.joinTime == joinedAt.value
  {
    if joinedAt.None? then Unknown
    else
      var elapsed := now - joinedAt.value;
      var minutes := elapsed / MinuteMs;
      if minutes < 1 then JustNow
      else if minutes < 60 then MinutesAgo(minutes)
      else if minutes < 1440 then
        var hours := minutes / 60;
        assert hours * 60 <= minutes < (hours + 1) * 60;
        assert hours * HourMs == hours * 60 * MinuteMs;
        assert (hours + 1) * HourMs == (hours + 1) * 60 * MinuteMs;
        HoursAgo(hours)
      else OnDate(joinedAt.value)
  }

  /** The text shown for a label; a date is rendered by the browser's locale
      formatting, which is not part of this model. */
  function LabelText(l: JoinTimeLabel): string
  {
    match l
    case Unknown => "Unknown"
    case JustNow => "Just now"
    case MinutesAgo(m) => (if m >= 0 then NatToString(m) else "") + " min ago"
    case HoursAgo(h) => (if h >= 0 then NatToString(h) else "") + " hours ago"
    case OnDate(_) => ""
  }

  // ---- The screen's state and handlers ----

  class EventDetailView {
    var event: ClientEvent
    var guestInfo: GuestInfo
    var showJoinForm: bool
    var joinLoading: bool

    /** The screen once its event has loaded. */
    constructor (loaded: ClientEvent)
      ensures event == loaded && guestInfo == EmptyGuestInfo
      ensures !showJoinForm && !joinLoading
    {
      event := loaded;
      guestInfo := EmptyGuestInfo;
      showJoinForm := false;
      joinLoading := false;
    }

    /** Opening the join form; for a signed-in user without a phone the
        name field is then pre-filled. */
    method OpenJoinForm(user: Option<User>)
      modifies this
      ensures showJoinForm && event == old(event) && joinLoading == old(joinLoading)
      ensures user.Some? && !HasPhone(user.value) ==>
        guestInfo == old(guestInfo).(name := PrefillName(user.value))
      ensures !(user.Some? && !HasPhone(user.value)) ==>
        guestInfo == old(guestInfo)
    {
      showJoinForm := true;
      if user.Some? && !HasPhone(user.value) {
        guestInfo := guestInfo.(name := PrefillName(user.value));
      }
    }

    /** `handleJoinEvent`: a request the checks reject sends nothing and
        changes nothing; an accepted one sends the event with the longer list,
        and only when the server stores it (`saved`) does the screen take the
        new list, close the form and clear it. */
    method HandleJoinEvent(user: Option<User>, now: int, saved: bool) returns (sent: Option<ClientEvent>)
      modifies this
      ensures var r := Join(old(event).attendees, old(event).maxAttendees, old(guestInfo), user, now);
        && (r.Rejected? ==> sent == None)
        && (r.Joined? ==> sent == Some(old(event).(attendees := r.attendees)))
        && (r.Joined? && saved ==>
              event == sent.value && !showJoinForm && guestInfo == EmptyGuestInfo)
        && (r.Rejected? || !saved ==>
              event == old(event) && showJoinForm == old(showJoinForm) && guestInfo == old(guestInfo))
      ensures !joinLoading
    {
      var r := Join(event.attendees, event.maxAttendees, guestInfo, user, now);
      joinLoading := true;
      if r.Rejected? {
        joinLoading := false;
        return None;
      }
      var updated := event.(attendees := r.attendees);
      sent := Some(updated);
      if saved {
        event := updated;
        showJoinForm := false;
        guestInfo := EmptyGuestInfo;
      }
      joinLoading := false;
    }

    /** `handleLeaveEvent`: a guest cannot leave; a signed-in user who
        confirms sends the list without their entries, which the screen takes
        once the server has stored it. */
    method HandleLeaveEvent(user: Option<User>, confirmed: bool, saved: bool) returns (sent: Option<ClientEvent>)
      modifies this
      ensures user.None? || !confirmed ==> sent == None
      ensures user.Some? && confirmed ==>
        sent == Some(old(event).(attendees := Leave(old(event).attendees, user.value)))
      ensures event == if sent.Some? && saved then sent.value else old(event)
      ensures guestInfo == old(guestInfo) && showJoinForm == old(showJoinForm)
      ensures joinLoading == old(joinLoading)
    {
      if user.None? || !confirmed {
        return None;
      }
      var updated := event.(attendees := Leave(event.attendees, user.value));
      sent := Some(updated);
      if saved {
        event := updated;
      }
    }

    /** `handleRemoveAttendee`: only an administrator may remove, after
        confirming; the list without the target is sent and taken once
        stored. */
    method HandleRemoveAttendee(user: Option<User>, target: Attendee, confirmed: bool, saved: bool)
      returns (sent: Option<ClientEvent>)
      modifies this
      ensures !CanEdit(user) || !confirmed ==> sent == None
      ensures CanEdit(user) && confirmed ==>
        sent == Some(old(event).(attendees := RemoveAttendee(old(event).attendees, target)))
      ensures event == if sent.Some? && saved then sent.value else old(event)
      ensures guestInfo == old(guestInfo) && showJoinForm == old(showJoinForm)
      ensures joinLoading == old(joinLoading)
    {
      if !CanEdit(user) || !confirmed {
        return None;
      }
      var updated := event.(attendees := RemoveAttendee(event.attendees, target));
      sent := Some(updated);
      if saved {
        event := updated;
      }
    }
  }
}

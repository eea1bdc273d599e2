/** The bot that gathers events into named groups (bot/createGroup.js). The
    groups live in a `Map` from group id to group, kept in insertion order;
    a group records the ids of the events that matched its criteria. Reading
    the events file and the clock are left to the caller: the events and the
    time are passed in. */
module Groups {
  import opened Common
  import opened Text

  /** An event as the bot reads it from the events file; dates are
      timestamps and only the number of attendees matters. */
  datatype BotEvent = BotEvent(
    id: int,
    title: string,
    description: string,
    date: int,
    location: string,
    status: Option<string>,
    attendeeCount: nat)

  /** Selection criteria; a missing or empty field (zero for the minimum)
      selects nothing out. */
  datatype Criteria = Criteria(
    startDate: Option<int>,
    endDate: Option<int>,
    status: Option<string>,
    location: Option<string>,
    keyword: Option<string>,
    minAttendees: Option<int>)

  /** The default `{}`. */
  const NoCriteria := Criteria(None, None, None, None, None, None)

  datatype Group = Group(
    id: string,
    name: string,
    criteria: Criteria,
    events: seq<int>,
    createdAt: int,
    updatedAt: int,
    memberCount: int)

  predicate Truthy(s: Option<string>)
  {
    s.Some? && s.value != []
  }

  /** Some criterion would select events out. */
  predicate HasCriteria(c: Criteria)
  {
    c.startDate.Some? || c.endDate.Some? || Truthy(c.status) || Truthy(c.location)
    || Truthy(c.keyword) || (c.minAttendees.Some? && c.minAttendees.value != 0)
  }

  /** The `filter` callback of `filterEventsByCriteria`: the first criterion
      that fails rejects the event. It accepts exactly the events that satisfy
      every given criterion: on or after the start date, on or before the end
      date, the same status, the location containing the wanted place and the
      title or description containing the keyword (both ignoring case), and
      at least the minimum number of attendees. */
  function Accepts(c: Criteria, e: BotEvent): (b: bool)
    ensures b <==>
      && (c.startDate.Some? ==> e.date >= c.startDate.value)
      && (c.endDate.Some? ==> e.date <= c.endDate.value)
      && (Truthy(c.status) ==> e.status == c.status)
      && (Truthy(c.location) ==> Includes(ToLower(e.location), ToLower(c.location.value)))
      && (Truthy(c.keyword) ==>
            Includes(ToLower(e.title), ToLower(c.keyword.value))
            || Includes(ToLower(e.description), ToLower(c.keyword.value)))
      && (c.minAttendees.Some? && c.minAttendees.value != 0 ==> e.attendeeCount >= c.minAttendees.value)
  {
    if c.startDate.Some? && e.date < c.startDate.value then false
    else if c.endDate.Some? && e.date > c.endDate.value then false
    else if Truthy(c.status) && e.status != c.status then false
    else if Truthy(c.location) && !Includes(ToLower(e.location), ToLower(c.location.value)) then false
    else if Truthy(c.keyword) &&
      !(Includes(ToLower(e.title), ToLower(c.keyword.value))
        || Includes(ToLower(e.description), ToLower(c.keyword.value))) then false
    else if c.minAttendees.Some? && c.minAttendees.value != 0 && e.attendeeCount < c.minAttendees.value then false
    else true
  }

  function Selector(c: Criteria): BotEvent -> bool
  {
    (e: BotEvent) => Accepts(c, e)
  }

  /** `filterEventsByCriteria`: the events the criteria accept, in their
      original order. */
  function FilterEventsByCriteria(events: seq<BotEvent>, c: Criteria): (r: seq<BotEvent>)
    ensures IsSubsequence(r, events)
    ensures forall e :: e in r <==> e in events && Accepts(c, e)
    ensures forall e :: multiset(r)[e] == if Accepts(c, e) then multiset(events)[e] else 0
  {
    Filter(events, Selector(c))
  }

  /** Without criteria every event is kept, in order. */
  lemma {:induction false} NoCriteriaKeepsAll(events: seq<BotEvent>, c: Criteria)
    requires !HasCriteria(c)
    ensures FilterEventsByCriteria(events, c) == events
  {
    FilterAll(events, Selector(c));
  }

  lemma LowerCharIdempotent(ch: char)
    ensures LowerChar(LowerChar(ch)) == LowerChar(ch)
  {
  }

  /** Lower-casing twice is lower-casing once. */
  lemma {:induction false} ToLowerIdempotent(s: string)
    ensures ToLower(ToLower(s)) == ToLower(s)
  {
    forall i | 0 <= i < |s| ensures ToLower(ToLower(s))[i] == ToLower(s)[i] {
      LowerCharIdempotent(s[i]);
    }
  }

  /** Location and keyword are matched ignoring case: a criterion selects the
      same events as its lower-cased form. */
  lemma {:induction false} CriteriaIgnoreCase(c: Criteria, e: BotEvent)
    requires Truthy(c.location) && Truthy(c.keyword)
    ensures Accepts(c, e) ==
      Accepts(c.(location := Some(ToLower(c.location.value)), keyword := Some(ToLower(c.keyword.value))), e)
  {
    ToLowerIdempotent(c.location.value);
    ToLowerIdempotent(c.keyword.value);
  }

  function EventIdOf(e: BotEvent): int
  {
    e.id
  }

  /** The position of the first `x` in `s`, or -1 (`indexOf`). */
  function IndexOf<T(==)>(s: seq<T>, x: T): (i: int)
    ensures -1 <= i < |s|
    ensures i == -1 <==> x !in s
    ensures 0 <= i ==> s[i] == x && x !in s[..i]
  {
    if s == [] then -1
    else if s[0] == x then 0
    else
      var j := IndexOf(s[1..], x);
      assert j >= 0 ==> s[1..][..j] == s[1..j + 1];
      if j == -1 then -1 else j + 1
  }

  /** `s` with its first `x` cut out (`splice(indexOf(x), 1)`), or `s` itself
      when it holds no `x`. */
  function RemoveFirst<T(==)>(s: seq<T>, x: T): (r: seq<T>)
    ensures x !in s ==> r == s
    ensures multiset(r) == multiset(s) - multiset{x}
  {
    var i := IndexOf(s, x);
    if i < 0 then s
    else
      assert s == s[..i] + [x] + s[i + 1..];
      s[..i] + s[i + 1..]
  }

  /** Only the first `x` goes: putting `x` back at the position of the
      first `x` of `s` gives `s`, and no `x` comes before it. */
  lemma RemoveFirstSplits<T>(s: seq<T>, x: T)
    requires x in s
    ensures var i, r := IndexOf(s, x), RemoveFirst(s, x);
      0 <= i <= |r| && s == r[..i] + [x] + r[i..] && x !in r[..i]
  {
    CutAt(s, IndexOf(s, x));
  }

  /** Cutting out position `i` and putting the element back restores `s`. */
  lemma CutAt<T>(s: seq<T>, i: nat)
    requires i < |s|
    ensures var r := s[..i] + s[i + 1..];
      r[..i] == s[..i] && s == r[..i] + [s[i]] + r[i..]
  {
    var r := s[..i] + s[i + 1..];
    assert r[..i] == s[..i];
    assert r[i..] == s[i + 1..];
    assert s == s[..i] + [s[i]] + s[i + 1..];
  }

  /** Removing an id just appended to a list that did not hold it gives the
      list back. */
  lemma {:induction false} RemoveAfterAppend<T>(s: seq<T>, x: T)
    requires x !in s
    ensures RemoveFirst(s + [x], x) == s
  {
    var i := IndexOf(s + [x], x);
    assert (s + [x])[..|s|] == s;
  }

  /** The events of the group with these ids, in the file's order. */
  function InGroup(ids: seq<int>): BotEvent -> bool
  {
    (e: BotEvent) => e.id in ids
  }

  /** Each group knows its own id and its member count; the key order lists
      each key of the map once. */
  ghost predicate GroupsValid(groups: map<string, Group>, order: seq<string>)
  {
    && (forall k :: k in groups ==> groups[k].id == k && groups[k].memberCount == |groups[k].events|)
    && (forall k :: k in groups <==> k in order)
    && (forall k :: multiset(order)[k] <= 1)
  }

  /** Replacing a group by one with the same id and a matching count keeps
      the collection valid. */
  lemma ReplaceGroupKeepsValid(groups: map<string, Group>, order: seq<string>, g: Group)
    requires GroupsValid(groups, order) && g.id in groups
    requires g.memberCount == |g.events|
    ensures GroupsValid(groups[g.id := g], order)
  {
  }

  /** Deleting a key from the map and from the order keeps them in step. */
  lemma DeleteGroupKeepsValid(groups: map<string, Group>, order: seq<string>, k: string)
    requires GroupsValid(groups, order)
    ensures GroupsValid(groups - {k}, RemoveFirst(order, k))
    ensures k !in RemoveFirst(order, k)
  {
    var r := RemoveFirst(order, k);
    var rest := groups - {k};
    assert multiset(r)[k] == 0;
    forall j
      ensures j in rest <==> j in r
      ensures multiset(r)[j] <= 1
    {
      if j != k {
        assert multiset(r)[j] == multiset(order)[j];
        assert j in r <==> j in order;
      }
    }
  }

  class EventGroupBot {
    var groups: map<string, Group>
    /** The keys of `groups` in insertion order, as a `Map` iterates. */
    var order: seq<string>

    ghost predicate Valid()
      reads this
    {
      GroupsValid(groups, order)
    }

    constructor ()
      ensures Valid() && groups == map[] && order == []
    {
      groups := map[];
      order := [];
    }

    /** `getGroup`. */
    function GetGroup(groupId: string): (g: Option<Group>)
      reads this
      ensures g.Some? <==> groupId in groups
      ensures g.Some? ==> g.value == groups[groupId]
    {
      if groupId in groups then Some(groups[groupId]) else None
    }

    /** `listGroups`: every group once, in insertion order. */
    function ListGroups(): (r: seq<Group>)
      requires Valid()
      reads this
      ensures |r| == |order|
      ensures forall i :: 0 <= i < |r| ==> r[i] == groups[order[i]]
      ensures forall k :: k in groups ==> groups[k] in r
    {
      var o, gs := order, groups;
      var r := seq(|o|, i requires 0 <= i < |o| => gs[o[i]]);
      assert forall k :: k in gs ==> gs[k] in r by {
        forall k | k in gs ensures gs[k] in r {
          var i :| 0 <= i < |o| && o[i] == k;
          assert r[i] == gs[k];
        }
      }
      r
    }

    /** `createGroup`: a group of the ids of the events the criteria accept,
        in order, counted, stored under its id (a fresh timestamp in the
        source; a key already present keeps its place in the order). */
    method CreateGroup(id: string, name: string, criteria: Criteria, events: seq<BotEvent>, now: int)
      returns (g: Group)
      requires Valid()
      modifies this
      ensures Valid()
      ensures g.id == id && g.name == name && g.criteria == criteria
      ensures g.events == MapSeq(FilterEventsByCriteria(events, criteria), EventIdOf)
      ensures g.memberCount == |FilterEventsByCriteria(events, criteria)|
      ensures g.createdAt == now && g.updatedAt == now
      ensures groups == old(groups)[id := g]
      ensures order == if id in old(groups) then old(order) else old(order) + [id]
    {
      var selected := FilterEventsByCriteria(events, criteria);
      g := Group(id, name, criteria, MapSeq(selected, EventIdOf), now, now, |selected|);
      if id !in groups {
        order := order + [id];
      }
      groups := groups[id := g];
    }

    /** `addEventToGroup`: false with no change when the group is missing or
        already holds the event; otherwise the id is appended and counted. */
    method AddEventToGroup(groupId: string, eventId: int, now: int) returns (added: bool)
      requires Valid()
      modifies this
      ensures Valid() && order == old(order)
      ensures added <==> groupId in old(groups) && eventId !in old(groups)[groupId].events
      ensures !added ==> groups == old(groups)
      ensures added ==>
        var g := old(groups)[groupId];
        groups == old(groups)[groupId := g.(events := g.events + [eventId],
                                            memberCount := |g.events| + 1, updatedAt := now)]
    {
      if groupId !in groups {
        return false;
      }
      var g := groups[groupId];
      if eventId in g.events {
        return false;
      }
      groups := groups[groupId := g.(events := g.events + [eventId],
                                     memberCount := |g.events + [eventId]|, updatedAt := now)];
      return true;
    }

    /** `removeEventFromGroup`: false with no change when the group is missing
        or does not hold the event; otherwise its first occurrence is cut out
        and the rest counted. */
    method RemoveEventFromGroup(groupId: string, eventId: int, now: int) returns (removed: bool)
      requires Valid()
      modifies this
      ensures Valid() && order == old(order)
      ensures removed <==> groupId in old(groups) && eventId in old(groups)[groupId].events
      ensures !removed ==> groups == old(groups)
      ensures removed ==>
        var g := old(groups)[groupId];
        groups == old(groups)[groupId := g.(events := RemoveFirst(g.events, eventId),
                                            memberCount := |g.events| - 1, updatedAt := now)]
    {
      if groupId !in groups {
        return false;
      }
      var g := groups[groupId];
      var index := IndexOf(g.events, eventId);
      if index > -1 {
        var events := RemoveFirst(g.events, eventId);
        ReplaceGroupKeepsValid(groups, order, g.(events := events, memberCount := |events|, updatedAt := now));
        groups := groups[groupId := g.(events := events, memberCount := |events|, updatedAt := now)];
        return true;
      }
      return false;
    }

    /** `getGroupEvents`: the events whose ids the group holds, in the file's
        order; nothing for a missing group. */
    function GetGroupEvents(groupId: string, allEvents: seq<BotEvent>): (r: seq<BotEvent>)
      reads this
      ensures groupId !in groups ==> r == []
      ensures groupId in groups ==>
        && IsSubsequence(r, allEvents)
        && (forall e :: e in r <==> e in allEvents && e.id in groups[groupId].events)
        && (forall e :: multiset(r)[e] == if e.id in groups[groupId].events then multiset(allEvents)[e] else 0)
    {
      if groupId !in groups then [] else Filter(allEvents, InGroup(groups[groupId].events))
    }

    /** `updateGroupCriteria`: false with no change for a missing group;
        otherwise the group takes the new criteria and exactly the ids of the
        events they accept, counted. */
    method UpdateGroupCriteria(groupId: string, newCriteria: Criteria, events: seq<BotEvent>, now: int)
      returns (updated: bool)
      requires Valid()
      modifies this
      ensures Valid() && order == old(order)
      ensures updated <==> groupId in old(groups)
      ensures !updated ==> groups == old(groups)
      ensures updated ==>
        var selected := FilterEventsByCriteria(events, newCriteria);
        groups == old(groups)[groupId := old(groups)[groupId].(
          criteria := newCriteria, events := MapSeq(selected, EventIdOf),
          memberCount := |selected|, updatedAt := now)]
    {
      if groupId !in groups {
        return false;
      }
      var selected := FilterEventsByCriteria(events, newCriteria);
      var ids := MapSeq(selected, EventIdOf);
      groups := groups[groupId := groups[groupId].(
        criteria := newCriteria, events := ids, memberCount := |ids|, updatedAt := now)];
      return true;
    }

    /** `deleteGroup`: false with no change for a missing group; otherwise
        that key alone is gone, and every other group is as it was. */
    method DeleteGroup(groupId: string) returns (deleted: bool)
      requires Valid()
      modifies this
      ensures Valid()
      ensures deleted <==> groupId in old(groups)
      ensures groups == old(groups) - {groupId}
      ensures order == RemoveFirst(old(order), groupId)
      ensures forall k :: k != groupId && k in old(groups) ==> k in groups && groups[k] == old(groups)[k]
    {
      deleted := groupId in groups;
      DeleteGroupKeepsValid(groups, order, groupId);
      groups := groups - {groupId};
      order := RemoveFirst(order, groupId);
    }
  }
}

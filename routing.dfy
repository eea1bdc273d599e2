/** The web client's navigation (frontend/src/App.js): which screen a URL
    path opens, the event ids it carries, and the handlers that switch
    screens and write the browser history. The history of the tab is a list
    of paths with a current position; `pushState` drops the entries after
    the current one and appends, `replaceState` overwrites the current one. */
module Routing {
  import opened Common
  import opened Text

  datatype View = Events | LoginView | Create | Edit | Detail

  /** The part of an `/edit/` path after the prefix. */
  function EditSuffix(path: string): string
    requires StartsWith(path, "/edit/")
  {
    path[6..]
  }

  /** `/edit/<id>` where the id is a non-empty run of digits. */
  predicate IsEditPath(path: string)
  {
    StartsWith(path, "/edit/") && IsDigits(path[6..])
  }

  /** `getInitialView`: login and create by their exact paths, edit for a
      valid edit path, and the event list for everything else, including
      every `/event/` path. No path opens the detail screen. */
  function InitialView(path: string): (v: View)
    ensures path == "/login" ==> v == LoginView
    ensures path == "/create" ==> v == Create
    ensures v == Edit <==> IsEditPath(path)
    ensures v == Events <==> path != "/login" && path != "/create" && !IsEditPath(path)
    ensures v != Detail
  {
    if path == "/login" then LoginView
    else if path == "/create" then
      assert path[..6][1] == 'c';
      Create
    else if StartsWith(path, "/edit/") then
      (if IsDigits(EditSuffix(path)) then Edit else Events)
    else if StartsWith(path, "/event/") then Events
    else Events
  }

  /** Whether `getInitialView` (and `handlePopState`) overwrite the current
      history entry with `/`: exactly when the path leads to the event list
      without being `/` itself. */
  function RedirectsHome(path: string): (b: bool)
    ensures b <==> InitialView(path) == Events && path != "/"
  {
    if path == "/login" || path == "/create" then false
    else if StartsWith(path, "/edit/") then !IsDigits(EditSuffix(path))
    else if StartsWith(path, "/event/") then true
    else path != "/"
  }

  datatype EventIds = EventIds(editingEventId: Option<string>, viewingEventId: Option<string>)

  /** `getInitialEventIds`: only a valid edit path carries an id, and it is
      the path's own suffix; no path carries an event to view. */
  function InitialEventIds(path: string): (ids: EventIds)
    ensures ids.viewingEventId == None
    ensures ids.editingEventId.Some? <==> InitialView(path) == Edit
    ensures ids.editingEventId.Some? ==> path == "/edit/" + ids.editingEventId.value
  {
    if StartsWith(path, "/edit/") then
      var eventId := EditSuffix(path);
      assert path == "/edit/" + eventId;
      EventIds(if IsDigits(eventId) then Some(eventId) else None, None)
    else
      EventIds(None, None)
  }

  /** The path `showEditEvent` pushes opens the edit screen for that very id
      again, on a reload or a return through the history. */
  lemma EditPathRoundTrip(eventId: string)
    requires IsDigits(eventId)
    ensures InitialView("/edit/" + eventId) == Edit
    ensures InitialEventIds("/edit/" + eventId).editingEventId == Some(eventId)
  {
    assert ("/edit/" + eventId)[6..] == eventId;
  }

  /** Every numeric event id round-trips through its edit path. */
  lemma EditPathOfNumericId(n: nat)
    ensures InitialEventIds("/edit/" + NatToString(n)).editingEventId == Some(NatToString(n))
  {
    EditPathRoundTrip(NatToString(n));
  }

  /** The path `showEventDetail` pushes does not lead back to the detail
      screen: it opens the event list and is rewritten to `/`. */
  lemma DetailPathNotRestored(eventId: string)
    ensures InitialView("/event/" + eventId) == Events
    ensures RedirectsHome("/event/" + eventId)
  {
    assert ("/event/" + eventId)[..7] == "/event/";
    assert ("/event/" + eventId)[..6] != "/edit/" by {
      assert ("/event/" + eventId)[..6][2] == 'v';
    }
  }

  /** The navigation state of `AppContent` and the tab's history. */
  class Navigation {
    var activeView: View
    var editingEventId: Option<string>
    var viewingEventId: Option<string>
    var entries: seq<string>
    var index: nat

    ghost predicate Valid()
      reads this
    {
      index < |entries|
    }

    function CurrentPath(): string
      requires Valid()
      reads this
    {
      entries[index]
    }

    /** The screen and ids are what the current path would open. */
    ghost predicate MatchesPath()
      requires Valid()
      reads this
    {
      && activeView == InitialView(CurrentPath())
      && editingEventId == InitialEventIds(CurrentPath()).editingEventId
      && viewingEventId == None
    }

    /** The first render: the screen and ids come from the loaded path, which
        is rewritten to `/` when it leads to the event list by another name. */
    constructor (path: string)
      ensures Valid() && index == 0
      ensures activeView == InitialView(path)
      ensures editingEventId == InitialEventIds(path).editingEventId && viewingEventId == None
      ensures entries == [if RedirectsHome(path) then "/" else path]
      ensures MatchesPath()
    {
      activeView := InitialView(path);
      var ids := InitialEventIds(path);
      editingEventId := ids.editingEventId;
      viewingEventId := ids.viewingEventId;
      entries := [if RedirectsHome(path) then "/" else path];
      index := 0;
    }

    method PushState(path: string)
      requires Valid()
      modifies this
      ensures Valid()
      ensures entries == old(entries[..index + 1]) + [path] && index == old(index) + 1
      ensures activeView == old(activeView) && editingEventId == old(editingEventId)
      ensures viewingEventId == old(viewingEventId)
    {
      entries := entries[..index + 1] + [path];
      index := index + 1;
    }

    /** `handlePopState`, after the browser moved to another entry: the same
        screen, ids and rewrite as a fresh load of that entry's path. */
    method HandlePopState()
      requires Valid()
      modifies this
      ensures Valid() && index == old(index)
      ensures activeView == InitialView(old(CurrentPath()))
      ensures editingEventId == InitialEventIds(old(CurrentPath())).editingEventId
      ensures viewingEventId == None
      ensures entries == if RedirectsHome(old(CurrentPath())) then old(entries)[old(index) := "/"]
                         else old(entries)
      ensures MatchesPath()
    {
      var path := entries[index];
      if path == "/login" {
        activeView, editingEventId, viewingEventId := LoginView, None, None;
      } else if path == "/create" {
        activeView, editingEventId, viewingEventId := Create, None, None;
      } else if StartsWith(path, "/edit/") {
        var eventId := EditSuffix(path);
        if IsDigits(eventId) {
          activeView, editingEventId, viewingEventId := Edit, Some(eventId), None;
        } else {
          entries := entries[index := "/"];
          activeView, editingEventId, viewingEventId := Events, None, None;
        }
      } else if StartsWith(path, "/event/") {
        entries := entries[index := "/"];
        activeView, editingEventId, viewingEventId := Events, None, None;
      } else {
        if path != "/" {
          entries := entries[index := "/"];
        }
        activeView, editingEventId, viewingEventId := Events, None, None;
      }
    }

    /** A back or forward move to entry `to`, then the `popstate` handler. */
    method Traverse(to: nat)
      requires Valid() && to < |entries|
      modifies this
      ensures Valid() && index == to
      ensures activeView == InitialView(old(entries[to]))
      ensures entries == if RedirectsHome(old(entries[to])) then old(entries)[to := "/"] else old(entries)
      ensures MatchesPath()
    {
      index := to;
      HandlePopState();
    }

    /** `showEvents`: the list, no ids, and `/` pushed. */
    method ShowEvents()
      requires Valid()
      modifies this
      ensures Valid()
      ensures activeView == Events && editingEventId == None && viewingEventId == None
      ensures entries == old(entries[..index + 1]) + ["/"] && index == old(index) + 1
      ensures MatchesPath()
    {
      activeView, editingEventId, viewingEventId := Events, None, None;
      PushState("/");
    }

    /** `showLogin`: the login screen and `/login` pushed; the ids are kept. */
    method ShowLogin()
      requires Valid()
      modifies this
      ensures Valid()
      ensures activeView == LoginView
      ensures editingEventId == old(editingEventId) && viewingEventId == old(viewingEventId)
      ensures entries == old(entries[..index + 1]) + ["/login"] && index == old(index) + 1
      ensures activeView == InitialView(CurrentPath())
    {
      activeView := LoginView;
      PushState("/login");
    }

    /** `showCreateEvent`: the create screen and `/create` pushed; the ids
        are kept. */
    method ShowCreateEvent()
      requires Valid()
      modifies this
      ensures Valid()
      ensures activeView == Create
      ensures editingEventId == old(editingEventId) && viewingEventId == old(viewingEventId)
      ensures entries == old(entries[..index + 1]) + ["/create"] && index == old(index) + 1
      ensures activeView == InitialView(CurrentPath())
    {
      activeView := Create;
      PushState("/create");
    }

    /** `showEditEvent`: the edit screen for the id and `/edit/<id>` pushed;
        for a numeric id the state is what that path opens again. */
    method ShowEditEvent(eventId: string)
      requires Valid()
      modifies this
      ensures Valid()
      ensures activeView == Edit && editingEventId == Some(eventId) && viewingEventId == None
      ensures entries == old(entries[..index + 1]) + ["/edit/" + eventId] && index == old(index) + 1
      ensures IsDigits(eventId) ==> MatchesPath()
    {
      editingEventId, activeView, viewingEventId := Some(eventId), Edit, None;
      PushState("/edit/" + eventId);
      if IsDigits(eventId) {
        EditPathRoundTrip(eventId);
      }
    }

    /** `showEventDetail`: the detail screen for the id and `/event/<id>`
        pushed; the editing id is kept, and the pushed path does not open
        this screen again. */
    method ShowEventDetail(eventId: string)
      requires Valid()
      modifies this
      ensures Valid()
      ensures activeView == Detail && viewingEventId == Some(eventId)
      ensures editingEventId == old(editingEventId)
      ensures entries == old(entries[..index + 1]) + ["/event/" + eventId] && index == old(index) + 1
      ensures InitialView(CurrentPath()) == Events && !MatchesPath()
    {
      viewingEventId, activeView := Some(eventId), Detail;
      PushState("/event/" + eventId);
      DetailPathNotRestored(eventId);
    }
  }
}

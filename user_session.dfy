/** The signed-in user of the web client and the permission checks every
    screen asks of it (frontend/src/contexts/UserContext.js). The user record
    is whatever the login endpoint sent back, so each of its fields may be
    missing. */
module UserSession {
  import opened Common
  import Text

  datatype User = User(
    id: Option<int>,
    username: Option<string>,
    name: Option<string>,
    phone: Option<string>,
    role: Option<string>,
    loginTime: Option<int>)

  /** The record `{ ...undefined }` spreads to: every field missing. */
  const NoFields := User(None, None, None, None, None, None)

  // ---- Permission predicates: pure reads of the current user ----

  /** `user && user.role === 'admin'`. */
  predicate IsAdmin(user: Option<User>)
  {
    user.Some? && user.value.role == Some("admin")
  }

  /** `user !== null`. */
  predicate IsAuthenticated(user: Option<User>)
  {
    user.Some?
  }

  /** `user === null`: the opposite of being authenticated. */
  function IsGuest(user: Option<User>): (b: bool)
    ensures b <==> !IsAuthenticated(user)
  {
    user == None
  }

  /** Everyone may view events. */
  function CanView(user: Option<User>): (b: bool)
    ensures b
  {
    true
  }

  /** Everyone may join events, signed in or not. */
  function CanJoinEvent(user: Option<User>): (b: bool)
    ensures b
  {
    true
  }

  /** Creating, editing and deleting are each reserved to administrators. */
  function CanCreate(user: Option<User>): (b: bool)
    ensures b <==> user.Some? && user.value.role == Some("admin")
    ensures b ==> IsAuthenticated(user)
  {
    IsAdmin(user)
  }

  function CanEdit(user: Option<User>): (b: bool)
    ensures b <==> user.Some? && user.value.role == Some("admin")
    ensures b ==> IsAuthenticated(user)
  {
    IsAdmin(user)
  }

  function CanDelete(user: Option<User>): (b: bool)
    ensures b <==> user.Some? && user.value.role == Some("admin")
    ensures b ==> IsAuthenticated(user)
  {
    IsAdmin(user)
  }

  /** The three administrative permissions always agree. */
  lemma PermissionsAgree(user: Option<User>)
    ensures CanCreate(user) == CanEdit(user) == CanDelete(user) == IsAdmin(user)
  {
  }

  // ---- What the session is fed from outside ----

  /** What `localStorage.getItem('eventTrackerUser')` held at start-up: nothing
      (or an empty string), text `JSON.parse` rejects, or a parsed record
      (`null` included, for the text "null"). */
  datatype StoredUser = NoEntry | Unparsable | Parsed(user: Option<User>)

  /** The body the login endpoint answered with, or a failed request. */
  datatype LoginReply =
    | NetworkError
    | Reply(success: bool, user: Option<User>, message: Option<string>)

  datatype Outcome = Outcome(success: bool, message: string)

  /** The body the password endpoint answered with, or a failed request. */
  datatype PasswordReply = PasswordNetworkError | PasswordReply(outcome: Outcome)

  /** The request `changePassword` sends: the user's id and the new password. */
  datatype PasswordRequest = PasswordRequest(userId: Option<int>, newPassword: string)

  /** The React state of the user provider. */
  class Session {
    var user: Option<User>
    var loading: bool

    /** The provider's first effect: restore the stored user; text that does
        not parse leaves nobody signed in. */
    constructor (stored: StoredUser)
      ensures user == (if stored.Parsed? then stored.user else None)
      ensures stored.Unparsable? ==> IsGuest(user)
      ensures !loading
    {
      user := if stored.Parsed? then stored.user else None;
      loading := false;
    }

    /** `login`: a reply with `success` signs in its user, stamped with the
        login time; any other reply leaves the session as it was. */
    method Login(reply: LoginReply, now: int) returns (r: Outcome)
      modifies this
      ensures reply.Reply? && reply.success ==>
        r == Outcome(true, "Login successful") &&
        user == Some((if reply.user.Some? then reply.user.value else NoFields).(loginTime := Some(now))) &&
        IsAuthenticated(user)
      ensures reply.Reply? && !reply.success ==>
        r == Outcome(false, Text.Or(reply.message, "Login failed")) && user == old(user)
      ensures reply.NetworkError? ==>
        r == Outcome(false, "Network error. Please try again.") && user == old(user)
      ensures loading == old(loading)
    {
      if reply.NetworkError? {
        r := Outcome(false, "Network error. Please try again.");
      } else if reply.success {
        var u := if reply.user.Some? then reply.user.value else NoFields;
        user := Some(u.(loginTime := Some(now)));
        r := Outcome(true, "Login successful");
      } else {
        r := Outcome(false, Text.Or(reply.message, "Login failed"));
      }
    }

    /** `logout`: nobody is signed in afterwards. */
    method Logout()
      modifies this
      ensures user == None && IsGuest(user)
      ensures loading == old(loading)
    {
      user := None;
    }

    /** `changePassword`: without a user nothing is sent and the answer is
        "Not authenticated"; otherwise the user's id and the new password go to
        the server and its answer is passed on. The session does not change. */
    method ChangePassword(newPassword: string, reply: PasswordReply)
      returns (sent: Option<PasswordRequest>, r: Outcome)
      ensures user.None? ==> sent == None && r == Outcome(false, "Not authenticated")
      ensures user.Some? ==> sent == Some(PasswordRequest(user.value.id, newPassword))
      ensures user.Some? && reply.PasswordReply? ==> r == reply.outcome
      ensures user.Some? && reply.PasswordNetworkError? ==>
        r == Outcome(false, "Network error. Please try again.")
    {
      if user.None? {
        return None, Outcome(false, "Not authenticated");
      }
      sent := Some(PasswordRequest(user.value.id, newPassword));
      r := if reply.PasswordReply? then reply.outcome
           else Outcome(false, "Network error. Please try again.");
    }
  }
}

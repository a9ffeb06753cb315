/** The session layer: guest identities, the middleware that assigns them and
    keeps guests away from member-only pages, and logout. A session is the
    key/value map of one browser's cookie session. */
module Sessions {

  /** The marker every guest identity starts with. */
  const GuestPrefix: string := "schrödinger-"

  const LoginPath: string := "/login"

  /** Pages a guest may not see; matched by exact equality. */
  const DisallowedGuestRoutes: seq<string> := ["/create-product", "/profile", "/update-product"]

  predicate HasPrefix(s: string, prefix: string)
  {
    |prefix| <= |s| && s[..|prefix|] == prefix
  }

  /** A user id denotes a guest exactly when it carries the guest marker. */
  predicate IsGuest(userID: string): (guest: bool)
    ensures guest ==> |GuestPrefix| <= |userID| && userID == GuestPrefix + userID[|GuestPrefix|..]
    ensures !guest ==> forall uuid :: userID != GuestPrefix + uuid
  {
    HasPrefix(userID, GuestPrefix)
  }

  /** A fresh guest identity built from a random UUID. */
  function GenerateGuestUserID(uuid: string): (id: string)
    ensures IsGuest(id)
    ensures |id| == |GuestPrefix| + |uuid| && id[|GuestPrefix|..] == uuid
  {
    GuestPrefix + uuid
  }

  /** Walks the list of member-only routes, stopping at the first equal one. */
  method RouteDisallowed(path: string) returns (disallowed: bool)
    ensures disallowed <==> path in DisallowedGuestRoutes
  {
    var routes := DisallowedGuestRoutes;
    for i := 0 to |routes|
      invariant path !in routes[..i]
    {
      if path == routes[i] {
        return true;
      }
      assert routes[..i + 1] == routes[..i] + [routes[i]];
    }
    assert routes[..|routes|] == routes;
    disallowed := false;
  }

  /** A value held in the session map; Nil is what an absent key reads as. */
  datatype Value = Nil | Str(s: string) | Int(i: int)

  /** What the middleware hands on: a redirect, or the identity for the next handler. */
  datatype Gate = Redirect(location: string) | Next(userID: string, username: string)

  class Session {
    var values: map<string, Value>

    constructor ()
      ensures values == map[]
    {
      values := map[];
    }

    /** The userID entry, reading an absent key as Nil. */
    function UserIDValue(): Value
      reads this
    {
      if "userID" in values then values["userID"] else Nil
    }

    /** Only strings or nil are ever written under "userID", and a string userID
        always comes with a string username. */
    ghost predicate Valid()
      reads this
    {
      && (UserIDValue().Nil? || UserIDValue().Str?)
      && (UserIDValue().Str? ==> "username" in values && values["username"].Str?)
    }

    /** The session carries an identity, as it does once the middleware has run. */
    ghost predicate HasUser()
      reads this
    {
      Valid() && UserIDValue().Str?
    }

    function UserID(): string
      reads this
      requires HasUser()
    {
      values["userID"].s
    }

    function Username(): string
      reads this
      requires HasUser()
    {
      values["username"].s
    }

    /** Gives a session without a userID a guest identity, then redirects a
        guest asking for a member-only route to the login page. */
    method Middleware(path: string, uuid: string) returns (gate: Gate)
      requires Valid()
      modifies this
      ensures HasUser()
      ensures old(UserIDValue()).Nil? ==>
        values == old(values)["userID" := Str(GenerateGuestUserID(uuid))]["username" := Str("")]["loginFailTries" := Int(0)]
      ensures old(UserIDValue()).Str? ==> values == old(values)
      ensures gate.Redirect? <==> IsGuest(UserID()) && path in DisallowedGuestRoutes
      ensures gate.Redirect? ==> gate.location == LoginPath
      ensures gate.Next? ==> gate.userID == UserID() && gate.username == Username()
    {
      var userID := UserIDValue();
      if userID == Nil {
        var guestUserID := GenerateGuestUserID(uuid);
        values := values["userID" := Str(guestUserID)];
        values := values["username" := Str("")];
        values := values["loginFailTries" := Int(0)];
        userID := Str(guestUserID);
      }
      var username := values["username"];
      if IsGuest(userID.s) {
        var disallowed := RouteDisallowed(path);
        if disallowed {
          return Redirect(LoginPath);
        }
      }
      gate := Next(userID.s, username.s);
    }

    /** Forgets the identity of the session. */
    method Logout()
      requires Valid()
      modifies this
      ensures Valid()
      ensures values == old(values)["userID" := Nil]
      ensures UserIDValue().Nil?
    {
      values := values["userID" := Nil];
    }
  }

  /** A logged-out session is a guest on its next request: it gets a fresh guest
      identity and is sent to the login page from every member-only route. */
  method LogoutThenRequest(session: Session, path: string, uuid: string) returns (gate: Gate)
    requires session.Valid()
    modifies session
    ensures session.HasUser() && session.UserID() == GenerateGuestUserID(uuid)
    ensures session.Username() == ""
    ensures gate == if path in DisallowedGuestRoutes then Redirect(LoginPath) else Next(GenerateGuestUserID(uuid), "")
  {
    session.Logout();
    gate := session.Middleware(path, uuid);
  }
}

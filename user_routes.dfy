/**
 * The account handlers of routes/user.go as functions of the store state:
 * registration (email uniqueness check, then `User.Insert`), login
 * (lookup, password check, token and cookie) and the name-only profile update.
 */
module UserRoutes {
  import opened Wrappers
  import opened ObjectIds
  import opened Records
  import opened Documents
  import opened Responses
  import opened Credentials

  /** The keys of a login body. */
  datatype LoginBody = LoginBody(email: string, password: string)

  /** The session length `Login` gives a token and its cookie: 24 hours, in seconds. */
  const SessionSeconds: nat := 24 * 60 * 60

  /** The message of the driver's `ErrNoDocuments`. */
  const NoDocuments := "mongo: no documents in result"

  /**
   * `CreateAccount` after binding (routes/user.go:28-52): the email lookup,
   * whose error is ignored (a failed lookup reads as "no such user"), then
   * `User.Insert` (models/user.go:22-36): hash, fresh id, timestamps, write.
   */
  function Register(st: State, bound: Option<User>, newId: ObjectId, now: Time, faults: set<Step>): (r: Reply)
    ensures r.status in {200, 400, 500}
    ensures r.status != 200 ==> r.writes == []
    ensures bound.None? ==> r.status == 400
    ensures bound.Some? && Find !in faults && UserByEmail(st.users, bound.value.email).Some? ==>
              r == Fail(400, "User with email already exists")
    ensures r.status == 200 ==>
              && bound.Some? && HashPassword !in faults && Insert !in faults
              && r.writes == [UserInserted(StampUser(bound.value, newId, now))]
              && r.data == UserData(View(StampUser(bound.value, newId, now)))
  {
    match bound
    case None => Fail(400, BindError)
    case Some(u) =>
      var existingEmail :=
        if Find in faults then ""
        else match UserByEmail(st.users, u.email)
          case Some(existing) => existing.email
          case None => "";
      if existingEmail == u.email then Fail(400, "User with email already exists")
      else if HashPassword in faults then Fail(500, StoreError)
      else
        var stored := StampUser(u, newId, now);
        if Insert in faults || UserById(st.users, newId).Some? then Fail(500, StoreError)
        else Reply(200, "Account created", UserData(View(stored)), None, [UserInserted(stored)])
  }

  /** `CreateAccount` (routes/user.go:17-53) as written: binding never yields a password. */
  function CreateAccountAsWritten(st: State, body: Option<AccountBody>, newId: ObjectId, now: Time,
                                  faults: set<Step>): (r: Reply)
    ensures r.status == 400 && r.writes == []
  {
    BindUserAsWrittenRejectsAll(body);
    Register(st, BindUserAsWritten(body), newId, now, faults)
  }

  /** `CreateAccount` with the password read from the body, as intended. */
  function CreateAccount(st: State, body: Option<AccountBody>, newId: ObjectId, now: Time,
                         faults: set<Step>): (r: Reply)
    ensures r.status == 200 <==>
              && BindUser(body).Some?
              && (Find in faults || UserByEmail(st.users, body.value.email).None?)
              && HashPassword !in faults && Insert !in faults && UserById(st.users, newId).None?
    ensures r.status == 200 ==>
              && |r.writes| == 1 && r.writes[0].UserInserted?
              && r.writes[0].user.id == newId && r.data == UserData(View(r.writes[0].user))
              && r.writes[0].user.email == body.value.email && r.writes[0].user.name == body.value.name
              && Verify(body.value.password, r.writes[0].user.password)
              && r.writes[0].user.password != body.value.password
  {
    Register(st, BindUser(body), newId, now, faults)
  }

  /** The login body binds: email (in email form) and password are required. */
  predicate LoginBinds(body: Option<LoginBody>) {
    body.Some? && body.value.email != "" && IsEmail(body.value.email) && body.value.password != ""
  }

  /**
   * `Login` (routes/user.go:55-119). Any lookup error answers 404; a
   * signing failure answers 200 "Failed to login" with no cookie. `elapsed`
   * is the time between computing the session end and setting the cookie.
   */
  function Login(st: State, body: Option<LoginBody>, now: Time, elapsed: nat, faults: set<Step>): (r: Reply)
    ensures r.writes == []
    ensures !LoginBinds(body) ==> r.status == 400 && r.cookie.None?
    ensures LoginBinds(body) && UserByEmail(st.users, body.value.email).None? ==>
              r.status == 404 && r.cookie.None? && r.data == NoData
    ensures LoginBinds(body) && Find !in faults && UserByEmail(st.users, body.value.email).Some?
              && !Verify(body.value.password, UserByEmail(st.users, body.value.email).value.password) ==>
              r == Fail(401, "Invalid credentials")
    ensures r.cookie.Some? <==>
              && LoginBinds(body) && Find !in faults && Sign !in faults
              && UserByEmail(st.users, body.value.email).Some?
              && Verify(body.value.password, UserByEmail(st.users, body.value.email).value.password)
    ensures r.cookie.Some? ==>
              var token := Encode(Hex(UserByEmail(st.users, body.value.email).value.id), now + SessionSeconds);
              && r.status == 200 && r.data == TokenData(token)
              && r.cookie.value == Cookie("token", token, SessionSeconds - elapsed, "/", "localhost", false, true)
    ensures r.data.TokenData? ==> r.cookie.Some?
  {
    if !LoginBinds(body) then Fail(400, BindError)
    else if Find in faults then Fail(404, StoreError)
    else
      match UserByEmail(st.users, body.value.email)
      case None => Fail(404, NoDocuments)
      case Some(u) =>
        if !Verify(body.value.password, u.password) then Fail(401, "Invalid credentials")
        else
          var sessionEnd := now + SessionSeconds;
          if Sign in faults then Fail(200, "Failed to login")
          else
            var token := Encode(Hex(u.id), sessionEnd);
            Reply(200, "Logged in", TokenData(token),
                  Some(Cookie("token", token, sessionEnd - (now + elapsed), "/", "localhost", false, true)), [])
  }

  /**
   * `UpdateUser` (routes/user.go:121-158): `$set` of `name` and `updatedAt`
   * on the caller's own record; zero documents modified answers 500.
   */
  function UpdateUser(st: State, caller: User, body: Option<string>, now: Time, faults: set<Step>): (r: Reply)
    ensures body.None? || body.value == "" ==> r == Fail(400, BindError)
    ensures r.status == 200 <==> r.writes != []
    ensures r.writes != [] ==>
              && UserById(st.users, caller.id).Some?
              && r.writes == [UserUpdated(UserById(st.users, caller.id).value.(name := body.value, updatedAt := now))]
              && r.writes[0].user != UserById(st.users, caller.id).value
    ensures body.Some? && body.value != "" ==>
              var stored := UserById(st.users, caller.id);
              if Update in faults || stored.None? || stored.value.(name := body.value, updatedAt := now) == stored.value
              then r == Fail(500, "Failed to update user")
              else r.status == 200
  {
    match body
    case None => Fail(400, BindError)
    case Some(name) =>
      if name == "" then Fail(400, BindError)
      else if Update in faults then Fail(500, "Failed to update user")
      else
        match UserById(st.users, caller.id)
        case None => Fail(500, "Failed to update user")
        case Some(u) =>
          var updated := u.(name := name, updatedAt := now);
          if updated == u then Fail(500, "Failed to update user")
          else Answer(200, "Updated user details", [UserUpdated(updated)])
  }
}

/**
 * The middleware of middlewares/authorize.go: the `token` cookie, then the
 * token, then the user it names, or an aborted request.
 */
module Authorization {
  import opened Wrappers
  import opened ObjectIds
  import opened Records
  import opened Documents
  import opened Credentials

  /** Either the chain continues with this user bound under "user", or it is aborted with a 401. */
  datatype Gate = Proceed(user: User) | Abort(status: int, message: string)

  /** The id the middleware looks up: the `jti` claim parsed as an object id; a parse error is ignored and leaves the zero id. */
  function SubjectId(jti: string): (id: ObjectId)
    ensures ObjectIdFromHex(jti).Some? ==> id == ObjectIdFromHex(jti).value
    ensures ObjectIdFromHex(jti).None? ==> id == NilObjectId
  {
    ObjectIdFromHex(jti).GetOr(NilObjectId)
  }

  /** `Authorize` (middlewares/authorize.go:17-58) at time `now`. */
  function Authorize(st: State, cookie: Option<Credential>, now: nat, faults: set<Step>): (g: Gate)
    ensures cookie.None? ==> g == Abort(401, "You are not logged in")
    ensures cookie.Some? && Decode(cookie.value, now).Err? ==> g == Abort(401, Decode(cookie.value, now).error)
    ensures g.Abort? ==> g.status == 401
    ensures cookie.Some? && Decode(cookie.value, now).Ok?
            && (Find in faults || UserById(st.users, SubjectId(Decode(cookie.value, now).value)).None?) ==>
              g == Abort(401, "Not authorized")
    ensures g.Proceed? <==>
              cookie.Some? && Decode(cookie.value, now).Ok? && Find !in faults
              && UserById(st.users, SubjectId(Decode(cookie.value, now).value)).Some?
    ensures g.Proceed? ==>
              var stored := UserById(st.users, SubjectId(Decode(cookie.value, now).value)).value;
              g.user == stored.(password := "")
  {
    match cookie
    case None => Abort(401, "You are not logged in")
    case Some(c) =>
      match Decode(c, now)
      case Err(message) => Abort(401, message)
      case Ok(jti) =>
        var userId := SubjectId(jti);
        if Find in faults then Abort(401, "Not authorized")
        else
          match UserById(st.users, userId)
          case None => Abort(401, "Not authorized")
          case Some(u) => Proceed(u.(password := ""))
  }
}

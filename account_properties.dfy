/** Properties of the account handlers and the authorization gate across requests. */
module AccountProperties {
  import opened Wrappers
  import opened ObjectIds
  import opened Records
  import opened Documents
  import opened Responses
  import opened Credentials
  import opened UserRoutes
  import opened Authorization

  /** No two stored users share an email: what the registration check is there to keep. */
  ghost predicate UniqueEmails(users: seq<User>) {
    forall i, j :: 0 <= i < j < |users| ==> users[i].email != users[j].email
  }

  /** A user appended behind users with other emails is the one a lookup by its email finds. */
  lemma {:induction false} UserByEmailAppend(users: seq<User>, u: User)
    requires UserByEmail(users, u.email).None?
    ensures UserByEmail(users + [u], u.email) == Some(u)
  {
    if users == [] {
      assert users + [u] == [u];
    } else {
      assert (users + [u])[0] == users[0];
      assert (users + [u])[1..] == users[1..] + [u];
      UserByEmailAppend(users[1..], u);
    }
  }

  /** With distinct ids, the lookup by id finds the user stored at any position. */
  lemma {:induction false} UserByIdUnique(users: seq<User>, i: int)
    requires 0 <= i < |users|
    requires forall a, b :: 0 <= a < b < |users| ==> users[a].id != users[b].id
    ensures UserById(users, users[i].id) == Some(users[i])
  {
    if i > 0 {
      UserByIdUnique(users[1..], i - 1);
    }
  }

  /** A successful registration appends exactly the stamped user and touches nothing else. */
  lemma CreateAccountAppendsOneUser(st: State, body: Option<AccountBody>, newId: ObjectId, now: Time, faults: set<Step>)
    requires CreateAccount(st, body, newId, now, faults).status == 200
    ensures var r := CreateAccount(st, body, newId, now, faults);
            var after := Replay(st, r.writes);
            && after.users == st.users + [r.writes[0].user]
            && after.books == st.books && after.pages == st.pages && after.assets == st.assets
            && (WellFormed(st) ==> WellFormed(after))
  {
    var r := CreateAccount(st, body, newId, now, faults);
    ReplayOne(st, r.writes[0]);
    assert r.writes == [r.writes[0]];
  }

  /** Failed registrations change nothing. */
  lemma CreateAccountFailureWritesNothing(st: State, body: Option<AccountBody>, newId: ObjectId, now: Time, faults: set<Step>)
    requires CreateAccount(st, body, newId, now, faults).status != 200
    ensures Replay(st, CreateAccount(st, body, newId, now, faults).writes) == st
  {
  }

  /** While the email lookup succeeds, registration keeps emails unique. */
  lemma CreateAccountKeepsEmailsUnique(st: State, body: Option<AccountBody>, newId: ObjectId, now: Time, faults: set<Step>)
    requires UniqueEmails(st.users) && Find !in faults
    ensures UniqueEmails(Replay(st, CreateAccount(st, body, newId, now, faults).writes).users)
  {
    var r := CreateAccount(st, body, newId, now, faults);
    if r.status == 200 {
      CreateAccountAppendsOneUser(st, body, newId, now, faults);
      var u := r.writes[0].user;
      var after := st.users + [u];
      forall i, j | 0 <= i < j < |after|
        ensures after[i].email != after[j].email
      {
        if j == |st.users| {
          assert after[i] == st.users[i];
        }
      }
    }
  }

  /**
   * The uniqueness check is not a guarantee: when the lookup fails, its error
   * is ignored and a second account with the same email is stored.
   */
  lemma FailedLookupAdmitsDuplicateEmail()
    ensures var existing := User(1, "a", "a@x.com", Hash("p1"), 0, 0);
            var st := State([existing], map[], map[], {});
            var body := Some(AccountBody("b", "a@x.com", "p2"));
            && UniqueEmails(st.users)
            && CreateAccount(st, body, 2, 5, {Find}).status == 200
            && !UniqueEmails(Replay(st, CreateAccount(st, body, 2, 5, {Find}).writes).users)
  {
    var existing := User(1, "a", "a@x.com", Hash("p1"), 0, 0);
    var st := State([existing], map[], map[], {});
    var body := Some(AccountBody("b", "a@x.com", "p2"));
    EmailForm();
    CreateAccountAppendsOneUser(st, body, 2, 5, {Find});
    var after := Replay(st, CreateAccount(st, body, 2, 5, {Find}).writes).users;
    assert after[0].email == after[1].email;
  }

  /** The address the examples below register with is in email form. */
  lemma EmailForm()
    ensures IsEmail("a@x.com")
  {
    var s := "a@x.com";
    assert s[..1] == "a" && s[2..] == "x.com";
    assert 0 < 1 < |s| - 1 && s[1] == '@' && '@' !in s[..1] && '@' !in s[2..];
  }

  /** As written, registration answers 400 to every request and stores nothing. */
  lemma CreateAccountAsWrittenRejectsAll(st: State, body: Option<AccountBody>, newId: ObjectId, now: Time, faults: set<Step>)
    ensures CreateAccountAsWritten(st, body, newId, now, faults) == Fail(400, BindError)
  {
    BindUserAsWrittenRejectsAll(body);
  }

  /** A well-formed request that the code as written refuses and the corrected binding accepts. */
  lemma RegistrationCounterexample()
    ensures var body := Some(AccountBody("a", "a@x.com", "p1"));
            var empty := State([], map[], map[], {});
            && CreateAccountAsWritten(empty, body, 1, 0, {}).status == 400
            && CreateAccount(empty, body, 1, 0, {}).status == 200
  {
    var body := Some(AccountBody("a", "a@x.com", "p1"));
    var empty := State([], map[], map[], {});
    EmailForm();
    assert BindUser(body).Some?;
    assert UserById(empty.users, 1).None?;
    CreateAccountAsWrittenRejectsAll(empty, body, 1, 0, {});
  }

  /** The password of a new account logs in, and the token names the new account's id. */
  lemma RegisterThenLogin(st: State, body: AccountBody, newId: ObjectId, now: Time, later: Time, elapsed: nat)
    requires CreateAccount(st, Some(body), newId, now, {}).status == 200
    ensures var st2 := Replay(st, CreateAccount(st, Some(body), newId, now, {}).writes);
            var r := Login(st2, Some(LoginBody(body.email, body.password)), later, elapsed, {});
            r.cookie.Some? && r.data == TokenData(Encode(Hex(newId), later + SessionSeconds))
  {
    var reg := CreateAccount(st, Some(body), newId, now, {});
    CreateAccountAppendsOneUser(st, Some(body), newId, now, {});
    UserByEmailAppend(st.users, reg.writes[0].user);
  }

  /**
   * A token from a successful login passes the gate until it expires, and
   * binds the user who logged in, with the password hash blanked.
   */
  lemma LoginThenAuthorize(st: State, body: LoginBody, now: Time, elapsed: nat, t: nat)
    requires Login(st, Some(body), now, elapsed, {}).cookie.Some?
    requires t < now + SessionSeconds
    requires WellFormed(st)
    ensures var token := Login(st, Some(body), now, elapsed, {}).cookie.value.value;
            var u := UserByEmail(st.users, body.email).value;
            Authorize(st, Some(token), t, {}) == Proceed(u.(password := ""))
  {
    var u := UserByEmail(st.users, body.email).value;
    var token := Encode(Hex(u.id), now + SessionSeconds);
    DecodeEncode(Hex(u.id), now + SessionSeconds, t);
    HexRoundTrip(u.id);
    var i :| 0 <= i < |st.users| && st.users[i] == u;
    UserByIdUnique(st.users, i);
  }

  /** Once its session has ended, the same token is refused with the decoder's message. */
  lemma ExpiredTokenIsRefused(st: State, body: LoginBody, now: Time, elapsed: nat, t: nat, faults: set<Step>)
    requires Login(st, Some(body), now, elapsed, {}).cookie.Some?
    requires now + SessionSeconds <= t
    ensures var token := Login(st, Some(body), now, elapsed, {}).cookie.value.value;
            Authorize(st, Some(token), t, faults) == Abort(401, DecodeFailure)
  {
  }

  /**
   * A valid token whose `jti` is not an object id is not refused: it is
   * looked up as the zero id and binds whoever is stored under it.
   */
  lemma MalformedSubjectBindsNilUser(st: State, jti: string, expiresAt: nat, t: nat)
    requires t < expiresAt && ObjectIdFromHex(jti).None?
    requires UserById(st.users, NilObjectId).Some?
    ensures Authorize(st, Some(Encode(jti, expiresAt)), t, {}) == Proceed(UserById(st.users, NilObjectId).value.(password := ""))
  {
    DecodeEncode(jti, expiresAt, t);
  }

  /** A successful profile update renames the caller's own record, stamps it, and leaves every other record as it was. */
  lemma UpdateUserRenamesCallerOnly(st: State, caller: User, name: string, now: Time, faults: set<Step>)
    requires UpdateUser(st, caller, Some(name), now, faults).status == 200
    ensures var before := UserById(st.users, caller.id).value;
            var after := Replay(st, UpdateUser(st, caller, Some(name), now, faults).writes);
            && UserById(after.users, caller.id) == Some(before.(name := name, updatedAt := now))
            && |after.users| == |st.users|
            && (forall i :: 0 <= i < |st.users| && st.users[i].id != caller.id ==> after.users[i] == st.users[i])
            && after.books == st.books && after.pages == st.pages && after.assets == st.assets
  {
    var r := UpdateUser(st, caller, Some(name), now, faults);
    ReplayOne(st, r.writes[0]);
    assert r.writes == [r.writes[0]];
  }

  /** The same update sent twice at the same instant modifies nothing the second time and answers 500. */
  lemma UpdateUserRepeatedFails(st: State, caller: User, name: string, now: Time)
    requires UpdateUser(st, caller, Some(name), now, {}).status == 200
    ensures var st2 := Replay(st, UpdateUser(st, caller, Some(name), now, {}).writes);
            UpdateUser(st2, caller, Some(name), now, {}) == Fail(500, "Failed to update user")
  {
    UpdateUserRenamesCallerOnly(st, caller, name, now, {});
  }
}

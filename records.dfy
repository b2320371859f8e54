/**
 * The three stored records of models/book.go, models/page.go and
 * models/user.go, the request bodies the handlers bind, and what each
 * `Insert` does to its receiver before writing it.
 */
module Records {
  import opened Wrappers
  import opened ObjectIds
  import Credentials

  /** A `primitive.DateTime`; the model makes no claim about its value. */
  type Time = nat

  datatype User = User(id: ObjectId, name: string, email: string, password: string,
                       createdAt: Time, updatedAt: Time)

  /** A user as JSON output shows it: `Password` is tagged `json:"-"`. */
  datatype UserView = UserView(id: ObjectId, name: string, email: string,
                               createdAt: Time, updatedAt: Time)

  datatype Book = Book(id: ObjectId, title: string, author: ObjectId, description: string,
                       cover: string, pages: seq<ObjectId>, createdAt: Time, updatedAt: Time)

  datatype Page = Page(id: ObjectId, title: string, cover: string, content: string,
                       createdAt: Time, updatedAt: Time)

  function View(u: User): UserView {
    UserView(u.id, u.name, u.email, u.createdAt, u.updatedAt)
  }

  /**
   * A simplified form of the validator's `email` rule: one `@` with
   * something on both sides.
   */
  predicate IsEmail(s: string) {
    exists i :: 0 < i < |s| - 1 && s[i] == '@' && '@' !in s[..i] && '@' !in s[i + 1..]
  }

  // ----- Binding (ShouldBindJSON): None stands for a body that is not JSON of the right shape.

  /** `models.Book` binding: `Title` and `Description` are required, the other keys optional. */
  function BindBook(body: Option<Book>): (r: Option<Book>)
    ensures r.Some? <==> body.Some? && body.value.title != "" && body.value.description != ""
    ensures r.Some? ==> r.value == body.value
  {
    if body.Some? && body.value.title != "" && body.value.description != "" then body else None
  }

  /** `models.Page` binding: only `Title` is required. */
  function BindPage(body: Option<Page>): (r: Option<Page>)
    ensures r.Some? <==> body.Some? && body.value.title != ""
    ensures r.Some? ==> r.value == body.value
  {
    if body.Some? && body.value.title != "" then body else None
  }

  /** The keys of a registration body. */
  datatype AccountBody = AccountBody(name: string, email: string, password: string)

  /** The required rules of `models.User`: name, email in email form, password. */
  predicate AccountValid(u: User) {
    u.name != "" && u.email != "" && IsEmail(u.email) && u.password != ""
  }

  /**
   * `models.User` binding as written: the JSON decoder skips `Password`
   * because of its `json:"-"` tag, so the field stays empty and its
   * `binding:"required"` rule then fails.
   */
  function BindUserAsWritten(body: Option<AccountBody>): (r: Option<User>)
    ensures r.Some? <==> body.Some? && AccountValid(User(NilObjectId, body.value.name, body.value.email, "", 0, 0))
    ensures r.Some? ==> r.value.password == "" && r.value.name == body.value.name && r.value.email == body.value.email
  {
    match body
    case None => None
    case Some(b) =>
      var decoded := User(NilObjectId, b.name, b.email, "", 0, 0);
      if AccountValid(decoded) then Some(decoded) else None
  }

  /** Binding as intended: the password is read from the body and only hidden on output. */
  function BindUser(body: Option<AccountBody>): (r: Option<User>)
    ensures r.Some? <==> body.Some? && AccountValid(User(NilObjectId, body.value.name, body.value.email, body.value.password, 0, 0))
    ensures r.Some? ==> r.value.name == body.value.name && r.value.email == body.value.email
                        && r.value.password == body.value.password
  {
    match body
    case None => None
    case Some(b) =>
      var decoded := User(NilObjectId, b.name, b.email, b.password, 0, 0);
      if AccountValid(decoded) then Some(decoded) else None
  }

  /** Every registration body fails binding as written. */
  lemma BindUserAsWrittenRejectsAll(body: Option<AccountBody>)
    ensures BindUserAsWritten(body) == None
  {
  }

  // ----- What each `Insert` does to its receiver before the write.

  /** `Book.Insert`: a fresh id and both timestamps overwrite whatever the receiver held. */
  function StampBook(b: Book, id: ObjectId, now: Time): (r: Book)
    ensures r.id == id && r.createdAt == now && r.updatedAt == now
    ensures r.(id := b.id, createdAt := b.createdAt, updatedAt := b.updatedAt) == b
  {
    b.(id := id, createdAt := now, updatedAt := now)
  }

  /** `Page.Insert`: a fresh id and both timestamps; nothing else changes. */
  function StampPage(p: Page, id: ObjectId, now: Time): (r: Page)
    ensures r.id == id && r.createdAt == now && r.updatedAt == now
    ensures r.(id := p.id, createdAt := p.createdAt, updatedAt := p.updatedAt) == p
  {
    p.(id := id, createdAt := now, updatedAt := now)
  }

  /** `User.Insert` once hashing succeeded: the password becomes its hash, then a fresh id and both timestamps. */
  function StampUser(u: User, id: ObjectId, now: Time): (r: User)
    ensures r.id == id && r.createdAt == now && r.updatedAt == now
    ensures Credentials.Verify(u.password, r.password) && r.password != u.password
    ensures r.name == u.name && r.email == u.email
  {
    u.(id := id, password := Credentials.Hash(u.password), createdAt := now, updatedAt := now)
  }
}

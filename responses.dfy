/**
 * What a handler hands back: the HTTP status, the message, the payload,
 * the cookie it sets (only `Login` sets one) and the writes it performed.
 */
module Responses {
  import opened Wrappers
  import opened Records
  import opened Documents
  import Credentials

  /** `ctx.SetCookie(name, value, maxAge, path, domain, secure, httpOnly)`. */
  datatype Cookie = Cookie(name: string, value: Credentials.Credential, maxAge: int, path: string,
                           domain: string, secure: bool, httpOnly: bool)

  datatype Data =
    | NoData
    | BookData(book: Book)
    | BooksData(books: set<Book>)
    | PageData(page: Page)
    | UserData(user: UserView)
    | AssetData(asset: string)
    | TokenData(token: Credentials.Credential)

  datatype Reply = Reply(status: int, message: string, data: Data, cookie: Option<Cookie>,
                         writes: seq<Write>)

  /** A reply without payload or cookie. */
  function Answer(status: int, message: string, writes: seq<Write>): Reply {
    Reply(status, message, NoData, None, writes)
  }

  /** A reply that wrote nothing. */
  function Fail(status: int, message: string): Reply {
    Answer(status, message, [])
  }

  /** Stand-ins for messages the source takes from an error value (`err.Error()`). */
  const BindError := "request body does not bind"
  const StoreError := "store error"
  const MissingFile := "http: no such file"
}

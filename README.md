# gin-basic-api, modelled in Dafny

A model of the request handlers of a small book-publishing API. Users register and log in. They get a signed token in a cookie, and a middleware turns that token back into the stored user. An authenticated author creates books, adds, edits and deletes the pages of their own books, and changes book and page covers. Covers live as assets on a media host. Books, pages and users live in three document collections.

The model has two layers.

- **Specification functions** (`BookRoutes`, `UserRoutes`, `Authorization`). Each handler is a function of the store state. It returns the reply: status, message, data, cookie, and the ordered list of writes the handler performs.
  - `Documents.Replay` gives the store after those writes.
  - Whatever the environment decides is a parameter: the fresh object id, the asset id the media host assigns, the clock, and which store or remote steps fail.
- **An imperative server** (`Server`). The class `Database` holds the collections as fields. Its methods are the driver and media-host calls the handlers make: `FindOne`, `InsertOne`, `UpdateByID`, `FindOneAndUpdate`, `FindOneAndDelete`, upload and destroy.
  - The models' `Insert` methods stamp a record and write it.
  - Each handler method runs the source's steps in order. It is proved to answer exactly what its specification function says and to leave the store at `Replay(old store, writes)`.
  - Every mutating method keeps the class invariant: documents sit under their own ids and user ids are distinct.

Properties proved about the specification functions:

- The ownership gate.
- What each failure window leaves behind. For example, a failed `$push` leaves an orphan page, and a failed `$pull` leaves a dangling reference.
- Round trips: add then delete a page, register then log in then pass the middleware, hex encode then parse an object id.
- Idempotence of partial updates.
- Email uniqueness: kept while the lookup works, and not guaranteed when it fails.

## Model

| member | source | states |
|---|---|---|
| ObjectIds.ObjectIdFromHex | routes/book.go:55-62 | accepts exactly the 24-hex-digit strings of either case, and yields their value; every other string is refused |
| ObjectIds.HexRoundTrip | middlewares/authorize.go:38 | parsing the hex form of an id gives the id back |
| ObjectIds.HexInjective | middlewares/authorize.go:38 | distinct ids have distinct hex forms |
| ObjectIds.ParseToHex | routes/user.go:96 | reading back a fixed-width hex rendering gives the number rendered |
| Text.TrimSpace | routes/book.go:219-223 | the trimmed text is a contiguous slice of the input with only white space cut from each end, and it neither starts nor ends with white space |
| Text.BlankIffAllSpace | routes/book.go:220 | a value is blank after trimming exactly when every character is white space |
| Credentials.Hash | utils/hash.go:7-10 | the stored hash never equals the plain password |
| Credentials.VerifyIffSamePassword | utils/hash.go:12-14 | a password verifies against a hash exactly when it is the password that was hashed |
| Credentials.Decode | middlewares/authorize.go:28-36 | a credential decodes exactly when it is a signed token not yet expired; the result is its `jti`, and every failure carries the decoder's message |
| Credentials.DecodeEncode | utils/jwt.go:11-39 | a token signed for a `jti` decodes to that `jti` until it expires |
| Records.BindBook | models/book.go:16-18 | a book body binds exactly when title and description are present, and binds unchanged |
| Records.BindPage | models/page.go:14 | a page body binds exactly when its title is present |
| Records.BindUser | models/user.go:15-17 | the corrected binding: accepts exactly the bodies with name, email in email form and password, and keeps all three |
| Records.BindUserAsWritten | models/user.go:15-17 | as written, a body binds exactly when it is valid with the password left empty, and a bound user always has an empty password |
| Records.BindUserAsWrittenRejectsAll | models/user.go:17 | as written, binding never yields a user, since the password is never read from JSON yet is required |
| Records.StampBook | models/book.go:25-32 | `Book.Insert` sets a fresh id and both timestamps to now, and nothing else |
| Records.StampPage | models/page.go:21-28 | `Page.Insert` sets a fresh id and both timestamps to now, and nothing else |
| Records.StampUser | models/user.go:22-36 | `User.Insert` replaces the password with a hash the password verifies against, sets id and timestamps, and keeps name and email |
| Documents.UserByEmail | routes/user.go:29-31 | the lookup by email returns a stored user with that email, or none when no user has it |
| Documents.UserById | middlewares/authorize.go:41 | the lookup by id returns a stored user with that id, or none when no user has it |
| Documents.ReplaceUser | routes/user.go:137-146 | the update by id rewrites only the record with that id, keeps every id and position, and makes the new record the one found by that id |
| Documents.Apply | routes/book.go:106-127 | one write changes only the collection it lands in; users, books, pages and assets it does not touch are unchanged |
| Documents.ApplyEffect | routes/book.go:312-340 | an insert or update by `_id` leaves that document under its id, a delete removes exactly that id, and an upload or destroy adds or removes exactly that asset |
| Documents.Replay | routes/book.go:106-135 | a run of writes leaves unchanged every collection none of its writes lands in |
| Documents.Pull | routes/book.go:330-340 | `$pull` removes every occurrence of the id and keeps every other entry with its multiplicity |
| Documents.PullUndoesPush | routes/book.go:116-122 | pulling an id just pushed onto a list not holding it restores the list |
| Documents.PullAppend | routes/book.go:336-338 | `$pull` distributes over concatenation, so kept entries keep their order |
| Documents.ReplayAppend | routes/book.go:654-679 | persisting the new cover and then destroying the old asset is one run of writes: performing two runs in turn is performing their concatenation |
| BookRoutes.OwnedBook | routes/book.go:74-104 | the author-only gate: a found book written by the caller proceeds; otherwise exactly 500 "Something went wrong" on a store error, 404 "Book not found" when missing (tested first), 401 with the handler's denial for another author; nothing is written |
| BookRoutes.NonBlankFields | routes/book.go:208-223 | `$set` gets exactly the keys whose values are not blank after trimming, with their values |
| BookRoutes.UpdatedPage | routes/book.go:208-233 | an updated page takes each non-blank field from the body, keeps the others, and refreshes `updatedAt` |
| BookRoutes.UpdatedBook | routes/book.go:410-435 | an updated book takes each non-blank field from the body, keeps author, cover, pages and `createdAt`, and refreshes `updatedAt` |
| BookRoutes.DestroyOld | routes/book.go:673-679 | the old cover is destroyed only when there was one, and its failure writes nothing |
| BookRoutes.CreateBook | routes/book.go:22-52 | 400 exactly when binding fails, 201 exactly when the insert succeeds; the created book has the fresh id, the caller as author, no pages and both timestamps now |
| BookRoutes.AddPage | routes/book.go:54-141 | only the author writes; for the author with a bound page, a failed insert or taken id answers 500 "Failed to add page" and writes nothing, a working insert writes, and when the push also works the answer is 201 with the stamped page; a failed push answers 500 after the insert |
| BookRoutes.UpdatePage | routes/book.go:143-258 | only the author writes; for the author with a body, a failed update answers 500 "Something went wrong", a missing page 404 "Page not found", and otherwise 200 with the updated page |
| BookRoutes.DeletePage | routes/book.go:260-353 | only the author writes; for the author, a failed delete answers 500 "Failed to delete", a missing page 404 "Page not found", a failed pull 500 "Failed to remove page" after the page is deleted, and otherwise 200 |
| BookRoutes.UpdateBook | routes/book.go:355-449 | only the author writes; for the author with a body, a failed update answers 500 "Something went wrong" and writes nothing, otherwise 200 with the partial update stored |
| BookRoutes.DeleteBook | routes/book.go:451-509 | only the author writes; for the author, a failed delete answers 500 "Something went wrong", otherwise 200 with the book document deleted and nothing else written |
| BookRoutes.GetBooks | routes/book.go:511-536 | answers every stored book, unfiltered by caller, unless the query fails |
| BookRoutes.GetBook | routes/book.go:538-581 | 400 for a malformed id, 404 for a missing book, otherwise the stored book, whoever asks |
| BookRoutes.ChangeBookCover | routes/book.go:583-681 | only the author writes; for the author, no file answers 500, a failed upload answers 200 "Failed to upload file" and writes nothing, a failed or no-op update answers 500 "Failed to change cover" leaving the upload behind, and otherwise 200 with the new asset id, at most three writes in all |
| BookRoutes.ChangePageCover | routes/book.go:683-806 | as for books; a missing page answers 500 "Page not found" after the upload, and the page before the update names the asset to destroy |
| BookProperties.NonAuthorIsRefused | routes/book.go:99-104 | for every mutating book handler, a caller who is not the author gets 401 and nothing is written |
| BookProperties.MissingBookIsNotFound | routes/book.go:78-84 | for every mutating book handler, a well-formed id naming no book gets 404 and nothing is written |
| BookProperties.CreateBookStoresOneBook | routes/book.go:36-40 | a created book is stored under its fresh id, and users, pages and assets are unchanged |
| BookProperties.AddPageKeepsReferencesResolved | routes/book.go:106-135 | whatever fails, adding a page never makes a book list a page that is not stored |
| BookProperties.AddPageFailureWindows | routes/book.go:106-135 | without a 201 the books are untouched; a failed push leaves the new page stored but listed by no book |
| BookProperties.AddPageThenGetBook | routes/book.go:54-141 | after a successful add, reading the book back shows the new page id last in its list |
| BookProperties.AddPageThenDeletePage | routes/book.go:260-353 | deleting the page just added restores the book's page list and the pages collection |
| BookProperties.DeletePagePullFailureLeavesDanglingReference | routes/book.go:312-348 | when the pull fails after the delete, the book still lists a page that is gone |
| BookProperties.DeletePageIgnoresMembership | routes/book.go:312-314 | the author of one book can delete a page listed by another author's book, which then dangles |
| BookProperties.DeletePageKeepsReferencesResolved | routes/book.go:312-340 | a successful delete keeps every reference resolved when no other book lists the page |
| BookProperties.UpdatedBookAgain | routes/book.go:410-425 | applying the same partial book update twice is applying it once with the later timestamp |
| BookProperties.UpdatedPageAgain | routes/book.go:208-223 | applying the same partial page update twice is applying it once with the later timestamp |
| BookProperties.UpdateBookTwice | routes/book.go:355-449 | repeating an `UpdateBook` request changes nothing but `updatedAt` |
| BookProperties.UpdatePageTwice | routes/book.go:143-258 | repeating an `UpdatePage` request changes nothing but `updatedAt` |
| BookProperties.DeleteBookLeavesPages | routes/book.go:494-496 | deleting a book leaves the pages collection unchanged, so its pages are orphaned |
| BookProperties.ChangeBookCoverEffects | routes/book.go:644-679 | after an upload the new asset is on the host whatever follows; on success the book shows the new cover, and, when the new asset id differs from the old cover, the old asset is gone unless its destruction failed |
| BookProperties.ChangePageCoverEffects | routes/book.go:752-804 | the same for a page cover, with the page before the update naming the asset destroyed |
| UserRoutes.Register | routes/user.go:28-52 | a bound body whose email a working lookup finds answers 400 "User with email already exists"; 200 only with the stamped user, written once |
| UserRoutes.CreateAccount | routes/user.go:17-53 | 200 exactly when the body binds, no user has the email (or the lookup failed), hashing and insert succeed and the id is new; the stored user has the new id, the body's name and email, and a hash of its password |
| UserRoutes.CreateAccountAsWritten | routes/user.go:17-26 | as written, every registration answers 400 and writes nothing |
| UserRoutes.Login | routes/user.go:55-119 | never writes; 400 on a bad body, 404 for an unknown email, 401 for a wrong password; a cookie exactly when all checks and signing succeed, holding a day-long token whose `jti` is the user's hex id |
| UserRoutes.UpdateUser | routes/user.go:121-158 | 400 without a name; with one, 500 "Failed to update user" when the update fails, the caller is not stored or nothing would change, and otherwise 200; a write happens exactly on 200, and it is the caller's stored record with the new name and `updatedAt` |
| Authorization.SubjectId | middlewares/authorize.go:38 | the `jti` parsed as an id, or the zero id when it does not parse |
| Authorization.Authorize | middlewares/authorize.go:17-58 | 401 without a cookie, 401 with the decoder's message on a bad token, 401 "Not authorized" when the lookup fails or finds nobody; proceeds exactly when the token decodes and the user it names is found, binding that user with the password blanked |
| AccountProperties.CreateAccountAppendsOneUser | models/user.go:35 | a successful registration appends exactly the stamped user and keeps the store well-formed |
| AccountProperties.CreateAccountFailureWritesNothing | routes/user.go:33-47 | a failed registration leaves the store unchanged |
| AccountProperties.CreateAccountKeepsEmailsUnique | routes/user.go:28-38 | while the lookup works, registration keeps emails unique |
| AccountProperties.FailedLookupAdmitsDuplicateEmail | routes/user.go:29-33 | when the lookup fails, its ignored error lets a second account with the same email be stored |
| AccountProperties.CreateAccountAsWrittenRejectsAll | routes/user.go:21-26 | as written, every registration answers 400 and writes nothing |
| AccountProperties.RegistrationCounterexample | models/user.go:17 | a well-formed body is refused as written and accepted by the corrected binding |
| AccountProperties.RegisterThenLogin | routes/user.go:88-117 | the password of a new account logs in, and the token names the new account's id |
| AccountProperties.LoginThenAuthorize | middlewares/authorize.go:28-56 | a token from a successful login passes the middleware until it expires and binds the user who logged in, password blanked |
| AccountProperties.ExpiredTokenIsRefused | middlewares/authorize.go:28-36 | after its session ends, the same token is refused with 401 and the decoder's message |
| AccountProperties.MalformedSubjectBindsNilUser | middlewares/authorize.go:38-41 | a valid token whose `jti` is not an id is not refused: it binds whoever is stored under the zero id |
| AccountProperties.UpdateUserRenamesCallerOnly | routes/user.go:137-146 | a successful update renames and stamps the caller's own record and leaves every other record unchanged |
| AccountProperties.UpdateUserRepeatedFails | routes/user.go:148-153 | the same update sent twice at the same instant modifies nothing the second time and answers 500 |
| Server.NonBlankUpdates | routes/book.go:219-223 | the loop over the body's fields builds exactly the `$set` entries of the non-blank values |
| Server.Database.FindBook | routes/book.go:73-84 | `FindOne` by `_id` fails exactly on a store fault and otherwise returns the stored book or none |
| Server.Database.FindUserByEmail | routes/user.go:29-31 | `FindOne` by email fails exactly on a store fault and otherwise returns the user with that email or none |
| Server.Database.FindUserById | middlewares/authorize.go:40-41 | `FindOne` by `_id` fails exactly on a store fault and otherwise returns the user with that id or none |
| Server.Database.AllBooks | routes/book.go:512 | `Find` with an empty filter fails exactly on a store fault and otherwise returns every stored book |
| Server.Database.InsertOneBook | models/book.go:31 | `InsertOne` fails on a store fault or a taken `_id`, and otherwise stores the book under its id |
| Server.Database.InsertOnePage | models/page.go:27 | `InsertOne` fails on a store fault or a taken `_id`, and otherwise stores the page under its id |
| Server.Database.InsertOneUser | models/user.go:35 | `InsertOne` fails on a store fault or a taken `_id`, and otherwise appends the user |
| Server.Database.InsertBook | models/book.go:25-32 | writes the stamped book unless the insert fails or the id is taken |
| Server.Database.InsertPage | models/page.go:21-28 | writes the stamped page unless the insert fails or the id is taken |
| Server.Database.InsertUser | models/user.go:22-36 | a hashing error returns before anything changes; otherwise writes the stamped user unless the insert fails or the id is taken |
| Server.Database.PushPageId | routes/book.go:116-127 | `$push` of the page id: modifies one document exactly when the update works and the book exists, appending the id and refreshing `updatedAt`; otherwise changes nothing |
| Server.Database.PullPageId | routes/book.go:330-340 | `$pull` of the page id: fails on a store fault or a missing book and changes nothing; otherwise removes every occurrence of the id from that book |
| Server.Database.SetPageFields | routes/book.go:225-233 | `FindOneAndUpdate` with `$set`: fails exactly on a store fault; otherwise returns the page after the update, or none when no page has the id, and stores that page |
| Server.Database.SetBookFields | routes/book.go:427-435 | `FindOneAndUpdate` with `$set`: fails on a store fault or a missing book; otherwise stores and returns the book after the update |
| Server.Database.SetBookCover | routes/book.go:654-666 | `UpdateByID` of the cover: modifies one document exactly when the update works, the book exists and the new cover and `updatedAt` change it; otherwise changes nothing |
| Server.Database.SetPageCover | routes/book.go:762-772 | `FindOneAndUpdate` of the cover: fails exactly on a store fault; otherwise returns the page before the update, or none when missing, and stores the page with the new cover |
| Server.Database.SetUserName | routes/user.go:137-146 | `UpdateByID` of the name: modifies one record exactly when the update works, the user exists and the record changes; otherwise changes nothing |
| Server.Database.DeletePageDoc | routes/book.go:312-314 | `FindOneAndDelete` of a page: finds it exactly when the delete works and the page is stored, and then removes it; otherwise changes nothing |
| Server.Database.DeleteBookDoc | routes/book.go:494-496 | `FindOneAndDelete` of a book: fails on a store fault or a missing book and changes nothing; otherwise removes it |
| Server.Database.UploadFile | utils/cld.go:44-49 | an upload fails exactly on a media-host fault; otherwise the host holds the new asset |
| Server.Database.DestroyFile | utils/cld.go:51-57 | a destroy fails exactly on a media-host fault; otherwise the asset is gone from the host |
| Server.Database.OwnedBook | routes/book.go:74-104 | the lookup-and-ownership steps answer as `BookRoutes.OwnedBook` |
| Server.Database.CreateBook | routes/book.go:22-52 | answers as `BookRoutes.CreateBook` and leaves the store as its writes say |
| Server.Database.AddPage | routes/book.go:54-141 | answers as `BookRoutes.AddPage` and leaves the store as its writes say |
| Server.Database.UpdatePage | routes/book.go:143-258 | answers as `BookRoutes.UpdatePage` and leaves the store as its writes say |
| Server.Database.DeletePage | routes/book.go:260-353 | answers as `BookRoutes.DeletePage` and leaves the store as its writes say |
| Server.Database.UpdateBook | routes/book.go:355-449 | answers as `BookRoutes.UpdateBook` and leaves the store as its writes say |
| Server.Database.DeleteBook | routes/book.go:451-509 | answers as `BookRoutes.DeleteBook` and leaves the store as its writes say |
| Server.Database.GetBooks | routes/book.go:511-536 | answers as `BookRoutes.GetBooks` |
| Server.Database.GetBook | routes/book.go:538-581 | answers as `BookRoutes.GetBook` |
| Server.Database.DestroyPrevious | routes/book.go:673-679 | destroys the old cover exactly as `BookRoutes.DestroyOld` says, and leaves the store as those writes say |
| Server.Database.ChangeBookCover | routes/book.go:583-681 | answers as `BookRoutes.ChangeBookCover` and leaves the store as its writes say |
| Server.Database.ChangePageCover | routes/book.go:683-806 | answers as `BookRoutes.ChangePageCover` and leaves the store as its writes say |
| Server.Database.CreateAccount | routes/user.go:17-53 | answers as `UserRoutes.CreateAccount` and leaves the store as its writes say |
| Server.Database.Login | routes/user.go:55-119 | answers as `UserRoutes.Login` and changes nothing |
| Server.Database.UpdateUser | routes/user.go:121-158 | answers as `UserRoutes.UpdateUser` and leaves the store as its writes say |
| Server.Database.Authorize | middlewares/authorize.go:17-58 | gates as `Authorization.Authorize` and changes nothing |

## Left out

- HTTP plumbing is not modelled: routing, JSON encoding, status-code constants and gin's context. Binding is reduced to the required-field rules, and a body that is not JSON of the right shape is `None`.
- Messages taken from an error value (`err.Error()`) are the fixed stand-ins `BindError`, `StoreError` and `MissingFile`.
- The document store is modelled as three in-memory collections. Which driver call fails is a parameter; connection handling, contexts and timeouts are not modelled.
- `GetBooks` answers a set: the order of the cursor is not modelled.
- bcrypt is modelled as an injective stand-in `Hash` with `Verify`. Cost factor, salt and the 72-byte limit are not modelled.
- The JWT library is modelled as `Encode`/`Decode`, a signed-claims pair that is a partial inverse.
  - `EncodeJWT` sets the expiry from its own clock and ignores its argument (utils/jwt.go:14). The model uses the session end the caller passes.
  - The claims type assertion at utils/jwt.go:32, and its second message "token is not valid", are not modelled. Every decode failure carries "failed to decode token".
- The email rule is simplified to one `@` with text on both sides. The validator's full address grammar is not modelled.
- Each handler reads the clock once (`now`). The separate `time.Now()` calls for `createdAt` and `updatedAt` are taken to agree.
  - `Login`'s cookie lifetime uses an explicit `elapsed` for the time between computing the session end and setting the cookie.
- Failing to decode a stored user in `Login` (routes/user.go:80-86) is not modelled, because stored documents always decode here.
- For the same reason, `GetBook`'s decode failure (routes/book.go:569-575) is not modelled; it would answer 500.
- `ChangeBookCover` with no `cover` file reads `formFile` before its error check (routes/book.go:625). The resulting panic answers 500 through gin's recovery, so the model answers 500 with `MissingFile`, as the intended branch does. `formFile.Open` failing is folded into the same case.
- `UpdateUser` reads `ModifiedCount` before checking `err` (routes/user.go:148). On an error this also ends in 500, which is what the model answers.
- Asset bytes, the upload wire format and the media host's responses are not modelled. An upload yields the asset id `uploaded` that the host chooses.
- The models' `Insert` methods mutate their receiver in place. Here the receiver's new value is returned as `stored`; no handler aliases the receiver.
- Concurrency between requests is not modelled. Each handler runs alone against the store, and every property is stated for requests that do not interleave.
- Logging, environment variables, `main.go`, `db.go` and model/user.go are not part of this model.

## Findings

| source | as written | input that shows it | evidently intended | confidence | as-written member | corrected member |
|---|---|---|---|---|---|---|
| models/user.go:17 | `Password` is tagged `json:"-"` and `binding:"required"`, so JSON binding never fills it and the required rule always fails: `CreateAccount` answers 400 to every request | body `{"name":"a","email":"a@x.com","password":"p1"}` on an empty store | read the password from the body and only hide it when a user is written out | not executed | Records.BindUserAsWritten (AccountProperties.RegistrationCounterexample, AccountProperties.CreateAccountAsWrittenRejectsAll) | Records.BindUser (UserRoutes.CreateAccount, AccountProperties.RegisterThenLogin) |

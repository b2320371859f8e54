/**
 * The handlers as the source runs them: step by step against a mutable
 * store. `Database` holds the three collections and the media host's assets;
 * its primitive methods are the driver and upload calls the handlers make,
 * and each handler method is proved to answer and to change the store
 * exactly as its specification function in `BookRoutes`, `UserRoutes` and
 * `Authorization` says.
 */
module Server {
  import opened Wrappers
  import opened ObjectIds
  import opened Text
  import opened Records
  import opened Documents
  import opened Responses
  import opened Credentials
  import BookRoutes
  import UserRoutes
  import Authorization

  /**
   * The loop over `updateMap` in `UpdatePage` and `UpdateBook`
   * (routes/book.go:219-223, 421-425): each key whose value is not blank
   * after trimming is added to the `$set` document.
   */
  method NonBlankUpdates(updateMap: map<string, string>) returns (set': map<string, string>)
    ensures set' == BookRoutes.NonBlankFields(updateMap)
  {
    set' := map[];
    var remaining := updateMap.Keys;
    while remaining != {}
      invariant remaining <= updateMap.Keys
      invariant forall k :: k in set' <==> k in updateMap && k !in remaining && !Blank(updateMap[k])
      invariant forall k :: k in set' ==> set'[k] == updateMap[k]
      decreases |remaining|
    {
      var key :| key in remaining;
      if TrimSpace(updateMap[key]) != "" {
        set' := set'[key := updateMap[key]];
      }
      remaining := remaining - {key};
    }
  }

  class Database {
    var users: seq<User>
    var books: map<ObjectId, Book>
    var pages: map<ObjectId, Page>
    var assets: set<string>

    /** The store as a value. */
    function Snapshot(): State
      reads this
    {
      State(users, books, pages, assets)
    }

    /** Documents sit under their own ids and user ids are distinct. */
    ghost predicate Valid()
      reads this
    {
      WellFormed(Snapshot())
    }

    constructor (st: State)
      requires WellFormed(st)
      ensures Snapshot() == st && Valid()
    {
      users := st.users;
      books := st.books;
      pages := st.pages;
      assets := st.assets;
    }

    // ----- Reads.

    /** `FindOne` on `books` by `_id`; `failed` stands for any error other than no document. */
    method FindBook(id: ObjectId, faults: set<Step>) returns (found: Option<Book>, failed: bool)
      ensures failed <==> Find in faults
      ensures failed ==> found.None?
      ensures !failed ==> found == (if id in books then Some(books[id]) else None)
    {
      failed := Find in faults;
      found := if !failed && id in books then Some(books[id]) else None;
    }

    /** `FindOne` on `users` by `email`: the first document in natural order. */
    method FindUserByEmail(email: string, faults: set<Step>) returns (found: Option<User>, failed: bool)
      ensures failed <==> Find in faults
      ensures failed ==> found.None?
      ensures !failed ==> found == UserByEmail(users, email)
    {
      failed := Find in faults;
      found := if failed then None else UserByEmail(users, email);
    }

    /** `FindOne` on `users` by `_id`. */
    method FindUserById(id: ObjectId, faults: set<Step>) returns (found: Option<User>, failed: bool)
      ensures failed <==> Find in faults
      ensures failed ==> found.None?
      ensures !failed ==> found == UserById(users, id)
    {
      failed := Find in faults;
      found := if failed then None else UserById(users, id);
    }

    /** `Find` on `books` with an empty filter, drained by `All`. */
    method AllBooks(faults: set<Step>) returns (all: set<Book>, failed: bool)
      ensures failed <==> Find in faults
      ensures !failed ==> all == books.Values
    {
      failed := Find in faults;
      all := if failed then {} else books.Values;
    }

    // ----- Inserts.

    /** `InsertOne` on `books`; a duplicate `_id` is refused. */
    method InsertOneBook(b: Book, faults: set<Step>) returns (failed: bool)
      modifies this
      ensures failed <==> Insert in faults || b.id in old(books)
      ensures Snapshot() == if failed then old(Snapshot()) else Apply(old(Snapshot()), BookInserted(b))
    {
      failed := Insert in faults || b.id in books;
      if !failed {
        books := books[b.id := b];
      }
    }

    /** `InsertOne` on `pages`; a duplicate `_id` is refused. */
    method InsertOnePage(p: Page, faults: set<Step>) returns (failed: bool)
      modifies this
      ensures failed <==> Insert in faults || p.id in old(pages)
      ensures Snapshot() == if failed then old(Snapshot()) else Apply(old(Snapshot()), PageInserted(p))
    {
      failed := Insert in faults || p.id in pages;
      if !failed {
        pages := pages[p.id := p];
      }
    }

    /** `InsertOne` on `users`; a duplicate `_id` is refused. */
    method InsertOneUser(u: User, faults: set<Step>) returns (failed: bool)
      modifies this
      ensures failed <==> Insert in faults || UserById(old(users), u.id).Some?
      ensures Snapshot() == if failed then old(Snapshot()) else Apply(old(Snapshot()), UserInserted(u))
    {
      var existing := UserById(users, u.id);
      failed := Insert in faults || existing.Some?;
      if !failed {
        users := users + [u];
      }
    }

    /** `Book.Insert` (models/book.go:25-32): the receiver gets a fresh id and both timestamps, then is written. */
    method InsertBook(b: Book, newId: ObjectId, now: Time, faults: set<Step>) returns (stored: Book, failed: bool)
      modifies this
      ensures stored == StampBook(b, newId, now)
      ensures failed <==> Insert in faults || newId in old(books)
      ensures Snapshot() == if failed then old(Snapshot()) else Apply(old(Snapshot()), BookInserted(stored))
    {
      stored := b.(id := newId, createdAt := now, updatedAt := now);
      failed := InsertOneBook(stored, faults);
    }

    /** `Page.Insert` (models/page.go:21-28). */
    method InsertPage(p: Page, newId: ObjectId, now: Time, faults: set<Step>) returns (stored: Page, failed: bool)
      modifies this
      ensures stored == StampPage(p, newId, now)
      ensures failed <==> Insert in faults || newId in old(pages)
      ensures Snapshot() == if failed then old(Snapshot()) else Apply(old(Snapshot()), PageInserted(stored))
    {
      stored := p.(id := newId, createdAt := now, updatedAt := now);
      failed := InsertOnePage(stored, faults);
    }

    /**
     * `User.Insert` (models/user.go:22-36): hash the password (a hashing
     * error returns before anything else), then a fresh id and both timestamps, then write.
     */
    method InsertUser(u: User, newId: ObjectId, now: Time, faults: set<Step>) returns (stored: User, failed: bool)
      modifies this
      ensures !failed ==> stored == StampUser(u, newId, now)
      ensures failed <==> HashPassword in faults || Insert in faults || UserById(old(users), newId).Some?
      ensures Snapshot() == if failed then old(Snapshot()) else Apply(old(Snapshot()), UserInserted(stored))
    {
      stored := u;
      if HashPassword in faults {
        return stored, true;
      }
      stored := stored.(id := newId, password := Hash(u.password), createdAt := now, updatedAt := now);
      failed := InsertOneUser(stored, faults);
    }

    // ----- Updates and deletes. Each keeps the documents under their own ids.

    /** `UpdateByID` on `books` with `$push` of a page id and `$set` of `updatedAt`. */
    method PushPageId(bookId: ObjectId, pageId: ObjectId, now: Time, faults: set<Step>) returns (modified: nat, failed: bool)
      requires Valid()
      modifies this
      ensures Valid()
      ensures failed <==> Update in faults
      ensures modified == (if !failed && bookId in old(books) then 1 else 0)
      ensures Snapshot() == if modified == 0 then old(Snapshot())
                             else Apply(old(Snapshot()), BookUpdated(BookRoutes.Pushed(old(books)[bookId], pageId, now)))
    {
      failed := Update in faults;
      modified := 0;
      if !failed && bookId in books {
        books := books[bookId := BookRoutes.Pushed(books[bookId], pageId, now)];
        modified := 1;
      }
    }

    /** `FindOneAndUpdate` on `books` with `$pull` of a page id; a missing book is an error. */
    method PullPageId(bookId: ObjectId, pageId: ObjectId, faults: set<Step>) returns (failed: bool)
      requires Valid()
      modifies this
      ensures Valid()
      ensures failed <==> Update in faults || bookId !in old(books)
      ensures Snapshot() == if failed then old(Snapshot())
                             else Apply(old(Snapshot()), BookUpdated(old(books)[bookId].(pages := Pull(old(books)[bookId].pages, pageId))))
    {
      failed := Update in faults || bookId !in books;
      if !failed {
        books := books[bookId := books[bookId].(pages := Pull(books[bookId].pages, pageId))];
      }
    }

    /** `FindOneAndUpdate` on `books` with these `$set` entries and `updatedAt`, returning the document after. */
    method SetBookFields(bookId: ObjectId, set': map<string, string>, now: Time, faults: set<Step>)
      returns (after: Option<Book>, failed: bool)
      requires Valid()
      modifies this
      ensures Valid()
      ensures failed <==> Update in faults || bookId !in old(books)
      ensures !failed ==> after == Some(BookRoutes.SetBook(old(books)[bookId], set', now))
      ensures Snapshot() == if failed then old(Snapshot()) else Apply(old(Snapshot()), BookUpdated(after.value))
    {
      failed := Update in faults || bookId !in books;
      after := None;
      if !failed {
        var updated := BookRoutes.SetBook(books[bookId], set', now);
        books := books[bookId := updated];
        after := Some(updated);
      }
    }

    /** `FindOneAndUpdate` on `pages` with these `$set` entries and `updatedAt`, returning the document after. */
    method SetPageFields(pageId: ObjectId, set': map<string, string>, now: Time, faults: set<Step>)
      returns (after: Option<Page>, failed: bool)
      requires Valid()
      modifies this
      ensures Valid()
      ensures failed <==> Update in faults
      ensures !failed ==> after == (if pageId in old(pages) then Some(BookRoutes.SetPage(old(pages)[pageId], set', now)) else None)
      ensures Snapshot() == if failed || after.None? then old(Snapshot()) else Apply(old(Snapshot()), PageUpdated(after.value))
    {
      failed := Update in faults;
      after := None;
      if !failed && pageId in pages {
        var updated := BookRoutes.SetPage(pages[pageId], set', now);
        pages := pages[pageId := updated];
        after := Some(updated);
      }
    }

    /** `UpdateByID` on `books` with `$set` of `cover` and `updatedAt`; an unchanged document counts as not modified. */
    method SetBookCover(bookId: ObjectId, cover: string, now: Time, faults: set<Step>) returns (modified: nat, failed: bool)
      requires Valid()
      modifies this
      ensures Valid()
      ensures failed <==> Update in faults
      ensures modified == (if !failed && bookId in old(books)
                              && old(books)[bookId].(updatedAt := now, cover := cover) != old(books)[bookId] then 1 else 0)
      ensures Snapshot() == if modified == 0 then old(Snapshot())
                             else Apply(old(Snapshot()), BookUpdated(old(books)[bookId].(updatedAt := now, cover := cover)))
    {
      failed := Update in faults;
      modified := 0;
      if !failed && bookId in books {
        var updated := books[bookId].(updatedAt := now, cover := cover);
        if updated != books[bookId] {
          books := books[bookId := updated];
          modified := 1;
        }
      }
    }

    /** `FindOneAndUpdate` on `pages` with `$set` of `cover` and `updatedAt`, returning the document before. */
    method SetPageCover(pageId: ObjectId, cover: string, now: Time, faults: set<Step>) returns (before: Option<Page>, failed: bool)
      requires Valid()
      modifies this
      ensures Valid()
      ensures failed <==> Update in faults
      ensures !failed ==> before == (if pageId in old(pages) then Some(old(pages)[pageId]) else None)
      ensures Snapshot() == if failed || before.None? then old(Snapshot())
                             else Apply(old(Snapshot()), PageUpdated(before.value.(updatedAt := now, cover := cover)))
    {
      failed := Update in faults;
      before := None;
      if !failed && pageId in pages {
        before := Some(pages[pageId]);
        pages := pages[pageId := pages[pageId].(updatedAt := now, cover := cover)];
      }
    }

    /** `UpdateByID` on `users` with `$set` of `name` and `updatedAt`; an unchanged document counts as not modified. */
    method SetUserName(id: ObjectId, name: string, now: Time, faults: set<Step>) returns (modified: nat, failed: bool)
      requires Valid()
      modifies this
      ensures Valid()
      ensures failed <==> Update in faults
      ensures modified == (if !failed && UserById(old(users), id).Some?
                              && UserById(old(users), id).value.(name := name, updatedAt := now) != UserById(old(users), id).value
                           then 1 else 0)
      ensures Snapshot() == if modified == 0 then old(Snapshot())
                             else Apply(old(Snapshot()), UserUpdated(UserById(old(users), id).value.(name := name, updatedAt := now)))
    {
      failed := Update in faults;
      modified := 0;
      if !failed {
        var found := UserById(users, id);
        if found.Some? {
          var updated := found.value.(name := name, updatedAt := now);
          if updated != found.value {
            users := ReplaceUser(users, updated);
            modified := 1;
          }
        }
      }
    }

    /** `FindOneAndDelete` on `pages`; `found` is false when no document matched. */
    method DeletePageDoc(pageId: ObjectId, faults: set<Step>) returns (found: bool, failed: bool)
      requires Valid()
      modifies this
      ensures Valid()
      ensures failed <==> Delete in faults
      ensures found <==> !failed && pageId in old(pages)
      ensures Snapshot() == if found then Apply(old(Snapshot()), PageDeleted(pageId)) else old(Snapshot())
    {
      failed := Delete in faults;
      found := !failed && pageId in pages;
      if found {
        pages := pages - {pageId};
      }
    }

    /** `FindOneAndDelete` on `books`; a missing book is an error. */
    method DeleteBookDoc(bookId: ObjectId, faults: set<Step>) returns (failed: bool)
      requires Valid()
      modifies this
      ensures Valid()
      ensures failed <==> Delete in faults || bookId !in old(books)
      ensures Snapshot() == if failed then old(Snapshot()) else Apply(old(Snapshot()), BookDeleted(bookId))
    {
      failed := Delete in faults || bookId !in books;
      if !failed {
        books := books - {bookId};
      }
    }

    // ----- The media host.

    /** `UploadFile`: the host stores the file under the asset id it chooses, `uploaded`. */
    method UploadFile(uploaded: string, faults: set<Step>) returns (failed: bool)
      modifies this
      ensures failed <==> Upload in faults
      ensures Snapshot() == if failed then old(Snapshot()) else Apply(old(Snapshot()), AssetUploaded(uploaded))
    {
      failed := Upload in faults;
      if !failed {
        assets := assets + {uploaded};
      }
    }

    /** `DeleteFile`: the host removes the asset. */
    method DestroyFile(asset: string, faults: set<Step>) returns (failed: bool)
      modifies this
      ensures failed <==> Destroy in faults
      ensures Snapshot() == if failed then old(Snapshot()) else Apply(old(Snapshot()), AssetDestroyed(asset))
    {
      failed := Destroy in faults;
      if !failed {
        assets := assets - {asset};
      }
    }

    // ----- The book handlers.

    /** The lookup and ownership test every mutating book handler runs first. */
    method OwnedBook(caller: ObjectId, bookId: ObjectId, faults: set<Step>, denied: string) returns (l: BookRoutes.Lookup)
      ensures l == BookRoutes.OwnedBook(Snapshot(), caller, bookId, faults, denied)
    {
      var found, failed := FindBook(bookId, faults);
      if failed {
        return BookRoutes.Refused(Fail(500, "Something went wrong"));
      }
      if found.None? {
        return BookRoutes.Refused(Fail(404, "Book not found"));
      }
      if found.value.author != caller {
        return BookRoutes.Refused(Fail(401, denied));
      }
      l := BookRoutes.Owned(found.value);
    }

    /** `CreateBook` (routes/book.go:22-52). */
    method CreateBook(caller: User, body: Option<Book>, newId: ObjectId, now: Time, faults: set<Step>) returns (reply: Reply)
      requires Valid()
      modifies this
      ensures Valid()
      ensures reply == BookRoutes.CreateBook(old(Snapshot()), caller, body, newId, now, faults)
      ensures Snapshot() == Replay(old(Snapshot()), reply.writes)
    {
      var bound := BindBook(body);
      if bound.None? {
        return Fail(400, BindError);
      }
      var book := bound.value.(author := caller.id, pages := []);
      var stored, failed := InsertBook(book, newId, now, faults);
      if failed {
        return Fail(500, StoreError);
      }
      reply := Reply(201, "Book created", BookData(stored), None, [BookInserted(stored)]);
      ReplayOne(old(Snapshot()), BookInserted(stored));
    }

    /** `AddPage` (routes/book.go:54-141): insert the page, then push its id onto the book. */
    method AddPage(caller: User, bookIdParam: string, body: Option<Page>, newId: ObjectId, now: Time,
                   faults: set<Step>) returns (reply: Reply)
      requires Valid()
      modifies this
      ensures Valid()
      ensures reply == BookRoutes.AddPage(old(Snapshot()), caller, bookIdParam, body, newId, now, faults)
      ensures Snapshot() == Replay(old(Snapshot()), reply.writes)
    {
      var bookId := ObjectIdFromHex(bookIdParam);
      if bookId.None? {
        return Fail(400, "Invalid book id");
      }
      var bound := BindPage(body);
      if bound.None? {
        return Fail(400, BindError);
      }
      var l := OwnedBook(caller.id, bookId.value, faults, "You can't add page to this book");
      if l.Refused? {
        return l.reply;
      }
      var page, failed := InsertPage(bound.value, newId, now, faults);
      if failed {
        return Fail(500, "Failed to add page");
      }
      ReplayOne(old(Snapshot()), PageInserted(page));
      var modified, updateFailed := PushPageId(bookId.value, newId, now, faults);
      if updateFailed || modified == 0 {
        return Answer(500, "Failed to add page", [PageInserted(page)]);
      }
      reply := Reply(201, "Added page to book", PageData(page), None,
                     [PageInserted(page), BookUpdated(BookRoutes.Pushed(l.book, newId, now))]);
      ReplayTwo(old(Snapshot()), PageInserted(page), BookUpdated(BookRoutes.Pushed(l.book, newId, now)));
    }

    /** `UpdatePage` (routes/book.go:143-258). */
    method UpdatePage(caller: User, bookIdParam: string, pageIdParam: string, body: Option<BookRoutes.PageInfo>,
                      now: Time, faults: set<Step>) returns (reply: Reply)
      requires Valid()
      modifies this
      ensures Valid()
      ensures reply == BookRoutes.UpdatePage(old(Snapshot()), caller, bookIdParam, pageIdParam, body, now, faults)
      ensures Snapshot() == Replay(old(Snapshot()), reply.writes)
    {
      var bookId := ObjectIdFromHex(bookIdParam);
      if bookId.None? {
        return Fail(400, "Invalid book id");
      }
      var pageId := ObjectIdFromHex(pageIdParam);
      if pageId.None? {
        return Fail(400, "Invalid page id");
      }
      if body.None? {
        return Fail(400, BindError);
      }
      var l := OwnedBook(caller.id, bookId.value, faults, "You can't update page from this book");
      if l.Refused? {
        return l.reply;
      }
      var set' := NonBlankUpdates(BookRoutes.PageUpdateMap(body.value));
      var after, failed := SetPageFields(pageId.value, set', now, faults);
      if failed {
        return Fail(500, "Something went wrong");
      }
      if after.None? {
        return Fail(404, "Page not found");
      }
      reply := Reply(200, "Updated page", PageData(after.value), None, [PageUpdated(after.value)]);
      ReplayOne(old(Snapshot()), PageUpdated(after.value));
    }

    /** `DeletePage` (routes/book.go:260-353): delete the page, then pull its id from the book. */
    method DeletePage(caller: User, bookIdParam: string, pageIdParam: string, faults: set<Step>) returns (reply: Reply)
      requires Valid()
      modifies this
      ensures Valid()
      ensures reply == BookRoutes.DeletePage(old(Snapshot()), caller, bookIdParam, pageIdParam, faults)
      ensures Snapshot() == Replay(old(Snapshot()), reply.writes)
    {
      var bookId := ObjectIdFromHex(bookIdParam);
      if bookId.None? {
        return Fail(400, "Invalid book id");
      }
      var pageId := ObjectIdFromHex(pageIdParam);
      if pageId.None? {
        return Fail(400, "Invalid page id");
      }
      var l := OwnedBook(caller.id, bookId.value, faults, "You can't delete page from this book");
      if l.Refused? {
        return l.reply;
      }
      var found, failed := DeletePageDoc(pageId.value, faults);
      if failed {
        return Fail(500, "Failed to delete");
      }
      if !found {
        return Fail(404, "Page not found");
      }
      ReplayOne(old(Snapshot()), PageDeleted(pageId.value));
      var pullFailed := PullPageId(bookId.value, pageId.value, faults);
      if pullFailed {
        return Answer(500, "Failed to remove page", [PageDeleted(pageId.value)]);
      }
      var pulled := BookUpdated(l.book.(pages := Pull(l.book.pages, pageId.value)));
      reply := Answer(200, "Removed page from book", [PageDeleted(pageId.value), pulled]);
      ReplayTwo(old(Snapshot()), PageDeleted(pageId.value), pulled);
    }

    /** `UpdateBook` (routes/book.go:355-449). */
    method UpdateBook(caller: User, bookIdParam: string, body: Option<BookRoutes.BookInfo>, now: Time,
                      faults: set<Step>) returns (reply: Reply)
      requires Valid()
      modifies this
      ensures Valid()
      ensures reply == BookRoutes.UpdateBook(old(Snapshot()), caller, bookIdParam, body, now, faults)
      ensures Snapshot() == Replay(old(Snapshot()), reply.writes)
    {
      var bookId := ObjectIdFromHex(bookIdParam);
      if bookId.None? {
        return Fail(400, "Invalid book id");
      }
      if body.None? {
        return Fail(400, BindError);
      }
      var l := OwnedBook(caller.id, bookId.value, faults, "You can't update this book");
      if l.Refused? {
        return l.reply;
      }
      var set' := NonBlankUpdates(BookRoutes.BookUpdateMap(body.value));
      var after, failed := SetBookFields(bookId.value, set', now, faults);
      if failed {
        return Fail(500, "Something went wrong");
      }
      reply := Answer(200, "Updated book", [BookUpdated(after.value)]);
      ReplayOne(old(Snapshot()), BookUpdated(after.value));
    }

    /** `DeleteBook` (routes/book.go:451-509): only the book document is deleted. */
    method DeleteBook(caller: User, bookIdParam: string, faults: set<Step>) returns (reply: Reply)
      requires Valid()
      modifies this
      ensures Valid()
      ensures reply == BookRoutes.DeleteBook(old(Snapshot()), caller, bookIdParam, faults)
      ensures Snapshot() == Replay(old(Snapshot()), reply.writes)
    {
      var bookId := ObjectIdFromHex(bookIdParam);
      if bookId.None? {
        return Fail(400, "Invalid book id");
      }
      var l := OwnedBook(caller.id, bookId.value, faults, "You can't delete this book");
      if l.Refused? {
        return l.reply;
      }
      var failed := DeleteBookDoc(bookId.value, faults);
      if failed {
        return Fail(500, "Something went wrong");
      }
      reply := Answer(200, "Book deleted", [BookDeleted(bookId.value)]);
      ReplayOne(old(Snapshot()), BookDeleted(bookId.value));
    }

    /** `GetBooks` (routes/book.go:511-536). */
    method GetBooks(faults: set<Step>) returns (reply: Reply)
      ensures reply == BookRoutes.GetBooks(Snapshot(), faults)
    {
      var all, failed := AllBooks(faults);
      if failed {
        return Fail(500, StoreError);
      }
      reply := Reply(200, "Books retrieved", BooksData(all), None, []);
    }

    /** `GetBook` (routes/book.go:538-581). */
    method GetBook(bookIdParam: string, faults: set<Step>) returns (reply: Reply)
      ensures reply == BookRoutes.GetBook(Snapshot(), bookIdParam, faults)
    {
      var bookId := ObjectIdFromHex(bookIdParam);
      if bookId.None? {
        return Fail(400, "Invalid book id");
      }
      var found, failed := FindBook(bookId.value, faults);
      if failed {
        return Fail(500, StoreError);
      }
      if found.None? {
        return Fail(404, "Book not found");
      }
      reply := Reply(200, "Book retrieved", BookData(found.value), None, []);
    }

    /** Destroy the previous cover once the new one is stored; a failure is only logged. */
    method DestroyPrevious(oldCover: string, faults: set<Step>) returns (ws: seq<Write>)
      modifies this
      ensures ws == BookRoutes.DestroyOld(oldCover, faults)
      ensures Snapshot() == Replay(old(Snapshot()), ws)
    {
      ws := [];
      if oldCover != "" {
        var failed := DestroyFile(oldCover, faults);
        if !failed {
          ws := [AssetDestroyed(oldCover)];
          ReplayOne(old(Snapshot()), AssetDestroyed(oldCover));
        }
      }
    }

    /** `ChangeBookCover` (routes/book.go:583-681): upload, persist the new asset id, then destroy the old one. */
    method ChangeBookCover(caller: User, bookIdParam: string, fileAttached: bool, uploaded: string, now: Time,
                           faults: set<Step>) returns (reply: Reply)
      requires Valid()
      modifies this
      ensures Valid()
      ensures reply == BookRoutes.ChangeBookCover(old(Snapshot()), caller, bookIdParam, fileAttached, uploaded, now, faults)
      ensures Snapshot() == Replay(old(Snapshot()), reply.writes)
    {
      var bookId := ObjectIdFromHex(bookIdParam);
      if bookId.None? {
        return Fail(400, "Invalid book id");
      }
      var l := OwnedBook(caller.id, bookId.value, faults, "You can't change this book's cover");
      if l.Refused? {
        return l.reply;
      }
      if !fileAttached {
        return Fail(500, MissingFile);
      }
      var uploadFailed := UploadFile(uploaded, faults);
      if uploadFailed {
        return Fail(200, "Failed to upload file");
      }
      ReplayOne(old(Snapshot()), AssetUploaded(uploaded));
      var modified, failed := SetBookCover(bookId.value, uploaded, now, faults);
      if failed || modified == 0 {
        return Answer(500, "Failed to change cover", [AssetUploaded(uploaded)]);
      }
      var persisted := [AssetUploaded(uploaded), BookUpdated(l.book.(updatedAt := now, cover := uploaded))];
      ReplayTwo(old(Snapshot()), persisted[0], persisted[1]);
      var destroyed := DestroyPrevious(l.book.cover, faults);
      ReplayAppend(old(Snapshot()), persisted, destroyed);
      reply := Reply(200, "Changed book cover", AssetData(uploaded), None, persisted + destroyed);
    }

    /** `ChangePageCover` (routes/book.go:683-806): as `ChangeBookCover`, with the page's pre-image naming the old asset. */
    method ChangePageCover(caller: User, bookIdParam: string, pageIdParam: string, fileAttached: bool,
                           uploaded: string, now: Time, faults: set<Step>) returns (reply: Reply)
      requires Valid()
      modifies this
      ensures Valid()
      ensures reply == BookRoutes.ChangePageCover(old(Snapshot()), caller, bookIdParam, pageIdParam, fileAttached,
                                                  uploaded, now, faults)
      ensures Snapshot() == Replay(old(Snapshot()), reply.writes)
    {
      var bookId := ObjectIdFromHex(bookIdParam);
      if bookId.None? {
        return Fail(400, "Invalid book id");
      }
      var pageId := ObjectIdFromHex(pageIdParam);
      if pageId.None? {
        return Fail(400, "Invalid page id");
      }
      var l := OwnedBook(caller.id, bookId.value, faults, "You can't change this page's cover");
      if l.Refused? {
        return l.reply;
      }
      if !fileAttached {
        return Fail(500, MissingFile);
      }
      var uploadFailed := UploadFile(uploaded, faults);
      if uploadFailed {
        return Fail(200, "Failed to upload file");
      }
      ReplayOne(old(Snapshot()), AssetUploaded(uploaded));
      var before, failed := SetPageCover(pageId.value, uploaded, now, faults);
      if failed {
        return Answer(500, "Failed to change cover", [AssetUploaded(uploaded)]);
      }
      if before.None? {
        return Answer(500, "Page not found", [AssetUploaded(uploaded)]);
      }
      var persisted := [AssetUploaded(uploaded), PageUpdated(before.value.(updatedAt := now, cover := uploaded))];
      ReplayTwo(old(Snapshot()), persisted[0], persisted[1]);
      var destroyed := DestroyPrevious(before.value.cover, faults);
      ReplayAppend(old(Snapshot()), persisted, destroyed);
      reply := Reply(200, "Changed page cover", AssetData(uploaded), None, persisted + destroyed);
    }

    // ----- The account handlers and the middleware.

    /** `CreateAccount` (routes/user.go:17-53), with the password bound as intended. */
    method CreateAccount(body: Option<AccountBody>, newId: ObjectId, now: Time, faults: set<Step>) returns (reply: Reply)
      requires Valid()
      modifies this
      ensures Valid()
      ensures reply == UserRoutes.CreateAccount(old(Snapshot()), body, newId, now, faults)
      ensures Snapshot() == Replay(old(Snapshot()), reply.writes)
    {
      var bound := BindUser(body);
      if bound.None? {
        return Fail(400, BindError);
      }
      // The lookup's error is ignored: a failed lookup leaves an empty user.
      var existing, _ := FindUserByEmail(bound.value.email, faults);
      var existingEmail := if existing.Some? then existing.value.email else "";
      if existingEmail == bound.value.email {
        return Fail(400, "User with email already exists");
      }
      var stored, failed := InsertUser(bound.value, newId, now, faults);
      if failed {
        return Fail(500, StoreError);
      }
      reply := Reply(200, "Account created", UserData(View(stored)), None, [UserInserted(stored)]);
      ReplayOne(old(Snapshot()), UserInserted(stored));
    }

    /** `Login` (routes/user.go:55-119): check the password, sign a day-long token, set it as a cookie. */
    method Login(body: Option<UserRoutes.LoginBody>, now: Time, elapsed: nat, faults: set<Step>) returns (reply: Reply)
      ensures reply == UserRoutes.Login(Snapshot(), body, now, elapsed, faults)
    {
      if !UserRoutes.LoginBinds(body) {
        return Fail(400, BindError);
      }
      var found, failed := FindUserByEmail(body.value.email, faults);
      if failed {
        return Fail(404, StoreError);
      }
      if found.None? {
        return Fail(404, UserRoutes.NoDocuments);
      }
      if !Verify(body.value.password, found.value.password) {
        return Fail(401, "Invalid credentials");
      }
      var sessionEnd := now + UserRoutes.SessionSeconds;
      if Sign in faults {
        return Fail(200, "Failed to login");
      }
      var token := Encode(Hex(found.value.id), sessionEnd);
      var maxAge := sessionEnd - (now + elapsed);
      reply := Reply(200, "Logged in", TokenData(token),
                     Some(Cookie("token", token, maxAge, "/", "localhost", false, true)), []);
    }

    /** `UpdateUser` (routes/user.go:121-158): rename the caller's own record. */
    method UpdateUser(caller: User, body: Option<string>, now: Time, faults: set<Step>) returns (reply: Reply)
      requires Valid()
      modifies this
      ensures Valid()
      ensures reply == UserRoutes.UpdateUser(old(Snapshot()), caller, body, now, faults)
      ensures Snapshot() == Replay(old(Snapshot()), reply.writes)
    {
      if body.None? || body.value == "" {
        return Fail(400, BindError);
      }
      // The record as stored before the update, for the write trace.
      var current := UserById(users, caller.id);
      var modified, failed := SetUserName(caller.id, body.value, now, faults);
      if modified == 0 || failed {
        return Fail(500, "Failed to update user");
      }
      var updated := current.value.(name := body.value, updatedAt := now);
      reply := Answer(200, "Updated user details", [UserUpdated(updated)]);
      ReplayOne(old(Snapshot()), UserUpdated(updated));
    }

    /** `Authorize` (middlewares/authorize.go:16-57): a read-only gate in front of the book routes. */
    method Authorize(cookie: Option<Credential>, now: nat, faults: set<Step>) returns (g: Authorization.Gate)
      ensures g == Authorization.Authorize(Snapshot(), cookie, now, faults)
    {
      if cookie.None? {
        return Authorization.Abort(401, "You are not logged in");
      }
      var claims := Decode(cookie.value, now);
      if claims.Err? {
        return Authorization.Abort(401, claims.error);
      }
      // The parse error is ignored, leaving the zero id.
      var userId := ObjectIdFromHex(claims.value).GetOr(NilObjectId);
      var found, failed := FindUserById(userId, faults);
      if failed || found.None? {
        return Authorization.Abort(401, "Not authorized");
      }
      g := Authorization.Proceed(found.value.(password := ""));
    }
  }
}

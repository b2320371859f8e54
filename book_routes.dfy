/**
 * The book and page handlers of routes/book.go as functions of the store
 * state: each gives the reply and the writes the handler performs, in order.
 * Every argument the environment decides (the newId id `NewObjectID`
 * returns, the asset id the media host assigns, the clock, the steps that
 * fail) is a parameter.
 */
module BookRoutes {
  import opened Wrappers
  import opened ObjectIds
  import opened Text
  import opened Records
  import opened Documents
  import opened Responses

  /** The body of `UpdatePage`: both keys optional. */
  datatype PageInfo = PageInfo(title: string, content: string)

  /** The body of `UpdateBook`: both keys optional. */
  datatype BookInfo = BookInfo(title: string, description: string)

  /** The stored book a path parameter names, if it parses and resolves. */
  function BookAt(st: State, bookIdParam: string): (r: Option<Book>)
    ensures r.Some? <==> ObjectIdFromHex(bookIdParam).Some? && ObjectIdFromHex(bookIdParam).value in st.books
  {
    match ObjectIdFromHex(bookIdParam)
    case Some(id) => if id in st.books then Some(st.books[id]) else None
    case None => None
  }

  /** The caller wrote the book the path parameter names. */
  predicate AuthoredBy(st: State, bookIdParam: string, caller: ObjectId) {
    BookAt(st, bookIdParam).Some? && BookAt(st, bookIdParam).value.author == caller
  }

  // ----- The lookup and ownership test every mutating handler runs.

  /** The request passes the gate: the book id parses, the lookup works and the caller wrote the book. */
  predicate Admitted(st: State, caller: User, bookIdParam: string, faults: set<Step>) {
    ObjectIdFromHex(bookIdParam).Some? && Find !in faults && AuthoredBy(st, bookIdParam, caller.id)
  }

  datatype Lookup = Owned(book: Book) | Refused(reply: Reply)

  /**
   * `FindOne` on `books`, then `book.Author != user.Id`: a store error gives
   * 500, a missing book 404 (tested before ownership), another author 401.
   */
  function OwnedBook(st: State, caller: ObjectId, bookId: ObjectId, faults: set<Step>, denied: string): (r: Lookup)
    ensures r.Owned? <==> Find !in faults && bookId in st.books && st.books[bookId].author == caller
    ensures r.Owned? ==> r.book == st.books[bookId]
    ensures r.Refused? ==> r.reply.writes == [] && r.reply.status in {401, 404, 500}
    ensures Find in faults ==> r == Refused(Fail(500, "Something went wrong"))
    ensures Find !in faults && bookId !in st.books ==> r == Refused(Fail(404, "Book not found"))
    ensures Find !in faults && bookId in st.books && st.books[bookId].author != caller ==> r == Refused(Fail(401, denied))
  {
    if Find in faults then Refused(Fail(500, "Something went wrong"))
    else if bookId !in st.books then Refused(Fail(404, "Book not found"))
    else if st.books[bookId].author != caller then Refused(Fail(401, denied))
    else Owned(st.books[bookId])
  }

  // ----- Partial updates: `$set` receives a key only when its value is not blank.

  /** The `$set` entries the loop over `updateMap` adds. */
  function NonBlankFields(updateMap: map<string, string>): (set': map<string, string>)
    ensures set'.Keys <= updateMap.Keys
    ensures forall k :: k in set' <==> k in updateMap && !Blank(updateMap[k])
    ensures forall k :: k in set' ==> set'[k] == updateMap[k]
  {
    map k | k in updateMap && !Blank(updateMap[k]) :: updateMap[k]
  }

  /** The value a field takes under `$set`. */
  function SetField(set': map<string, string>, key: string, current: string): string {
    if key in set' then set'[key] else current
  }

  function PageUpdateMap(info: PageInfo): map<string, string> {
    map["title" := info.title, "content" := info.content]
  }

  function BookUpdateMap(info: BookInfo): map<string, string> {
    map["title" := info.title, "description" := info.description]
  }

  /** A page after `$set` with these entries and `updatedAt`. */
  function SetPage(p: Page, set': map<string, string>, now: Time): Page {
    p.(title := SetField(set', "title", p.title), content := SetField(set', "content", p.content),
       updatedAt := now)
  }

  /** A book after `$set` with these entries and `updatedAt`. */
  function SetBook(b: Book, set': map<string, string>, now: Time): Book {
    b.(title := SetField(set', "title", b.title),
       description := SetField(set', "description", b.description), updatedAt := now)
  }

  /** The page `UpdatePage` stores for this request. */
  function UpdatedPage(p: Page, info: PageInfo, now: Time): (r: Page)
    ensures r.title == (if Blank(info.title) then p.title else info.title)
    ensures r.content == (if Blank(info.content) then p.content else info.content)
    ensures r.id == p.id && r.cover == p.cover && r.createdAt == p.createdAt && r.updatedAt == now
  {
    var m := PageUpdateMap(info);
    assert "title" in m && m["title"] == info.title;
    assert "content" in m && m["content"] == info.content;
    SetPage(p, NonBlankFields(m), now)
  }

  /** The book `UpdateBook` stores for this request. */
  function UpdatedBook(b: Book, info: BookInfo, now: Time): (r: Book)
    ensures r.title == (if Blank(info.title) then b.title else info.title)
    ensures r.description == (if Blank(info.description) then b.description else info.description)
    ensures r.id == b.id && r.author == b.author && r.cover == b.cover && r.pages == b.pages
    ensures r.createdAt == b.createdAt && r.updatedAt == now
  {
    var m := BookUpdateMap(info);
    assert "title" in m && m["title"] == info.title;
    assert "description" in m && m["description"] == info.description;
    SetBook(b, NonBlankFields(m), now)
  }

  /** The book after `$push` of a page id and the refreshed `updatedAt`. */
  function Pushed(b: Book, pageId: ObjectId, now: Time): Book {
    b.(pages := b.pages + [pageId], updatedAt := now)
  }

  /** The writes of a cover change after the upload, in order: persist, then destroy the old asset. */
  function DestroyOld(oldCover: string, faults: set<Step>): (ws: seq<Write>)
    ensures ws == [] || (ws == [AssetDestroyed(oldCover)] && oldCover != "")
    ensures oldCover != "" && Destroy !in faults ==> ws == [AssetDestroyed(oldCover)]
  {
    if oldCover != "" && Destroy !in faults then [AssetDestroyed(oldCover)] else []
  }

  // ----- The handlers.

  /** `CreateBook` (routes/book.go:22-52) with `Book.Insert` (models/book.go:25-32). */
  function CreateBook(st: State, caller: User, body: Option<Book>, newId: ObjectId, now: Time,
                      faults: set<Step>): (r: Reply)
    ensures r.status in {201, 400, 500}
    ensures r.status == 400 <==> BindBook(body).None?
    ensures r.status == 201 <==> BindBook(body).Some? && Insert !in faults && newId !in st.books
    ensures r.status != 201 ==> r.writes == []
    ensures r.status == 201 ==>
              && r.data.BookData? && r.writes == [BookInserted(r.data.book)]
              && r.data.book.id == newId && r.data.book.author == caller.id && r.data.book.pages == []
              && r.data.book.createdAt == now && r.data.book.updatedAt == now
              && r.data.book.title == body.value.title && r.data.book.description == body.value.description
              && r.data.book.cover == body.value.cover
  {
    match BindBook(body)
    case None => Fail(400, BindError)
    case Some(b) =>
      var book := StampBook(b.(author := caller.id, pages := []), newId, now);
      if Insert in faults || newId in st.books then Fail(500, StoreError)
      else Reply(201, "Book created", BookData(book), None, [BookInserted(book)])
  }

  /**
   * `AddPage` (routes/book.go:54-141): insert the page (`Page.Insert`,
   * models/page.go:21-28), then `$push` its id onto the book and refresh `updatedAt`.
   */
  function AddPage(st: State, caller: User, bookIdParam: string, body: Option<Page>,
                   newId: ObjectId, now: Time, faults: set<Step>): (r: Reply)
    ensures ObjectIdFromHex(bookIdParam).None? ==> r == Fail(400, "Invalid book id")
    ensures ObjectIdFromHex(bookIdParam).Some? && BindPage(body).None? ==> r == Fail(400, BindError)
    ensures r.writes != [] ==> AuthoredBy(st, bookIdParam, caller.id) && BindPage(body).Some?
    ensures |r.writes| <= 2
    ensures r.writes != [] ==> r.writes[0] == PageInserted(StampPage(body.value, newId, now))
    ensures |r.writes| == 2 ==> r.writes[1] == BookUpdated(Pushed(BookAt(st, bookIdParam).value, newId, now))
    ensures r.status == 201 <==> |r.writes| == 2
    ensures |r.writes| == 1 <==> r.writes != [] && Update in faults
    ensures |r.writes| == 1 ==> r.status == 500
    ensures Admitted(st, caller, bookIdParam, faults) && BindPage(body).Some? && (Insert in faults || newId in st.pages) ==>
              r == Fail(500, "Failed to add page")
    ensures Admitted(st, caller, bookIdParam, faults) && BindPage(body).Some? && Insert !in faults && newId !in st.pages ==>
              r.writes != []
    ensures Admitted(st, caller, bookIdParam, faults) && BindPage(body).Some? && Insert !in faults && Update !in faults
              && newId !in st.pages ==>
              r.status == 201 && r.data == PageData(StampPage(body.value, newId, now))
  {
    match ObjectIdFromHex(bookIdParam)
    case None => Fail(400, "Invalid book id")
    case Some(bookId) =>
      match BindPage(body)
      case None => Fail(400, BindError)
      case Some(p) =>
        match OwnedBook(st, caller.id, bookId, faults, "You can't add page to this book")
        case Refused(reply) => reply
        case Owned(book) =>
          var page := StampPage(p, newId, now);
          if Insert in faults || newId in st.pages then Fail(500, "Failed to add page")
          else if Update in faults then Answer(500, "Failed to add page", [PageInserted(page)])
          else Reply(201, "Added page to book", PageData(page), None,
                     [PageInserted(page), BookUpdated(Pushed(book, newId, now))])
  }

  /** `UpdatePage` (routes/book.go:143-258). The page id is not checked against `book.Pages`. */
  function UpdatePage(st: State, caller: User, bookIdParam: string, pageIdParam: string,
                      body: Option<PageInfo>, now: Time, faults: set<Step>): (r: Reply)
    ensures ObjectIdFromHex(bookIdParam).None? ==> r == Fail(400, "Invalid book id")
    ensures ObjectIdFromHex(bookIdParam).Some? && ObjectIdFromHex(pageIdParam).None? ==> r == Fail(400, "Invalid page id")
    ensures r.writes != [] ==> AuthoredBy(st, bookIdParam, caller.id)
    ensures r.status == 200 <==> r.writes != []
    ensures r.writes != [] ==>
              && ObjectIdFromHex(pageIdParam).Some? && ObjectIdFromHex(pageIdParam).value in st.pages
              && body.Some?
              && var updated := UpdatedPage(st.pages[ObjectIdFromHex(pageIdParam).value], body.value, now);
                 r.writes == [PageUpdated(updated)] && r.data == PageData(updated)
    ensures Admitted(st, caller, bookIdParam, faults) && ObjectIdFromHex(pageIdParam).Some? && body.Some? ==>
              if Update in faults then r == Fail(500, "Something went wrong")
              else if ObjectIdFromHex(pageIdParam).value !in st.pages then r == Fail(404, "Page not found")
              else r.status == 200
  {
    match ObjectIdFromHex(bookIdParam)
    case None => Fail(400, "Invalid book id")
    case Some(bookId) =>
      match ObjectIdFromHex(pageIdParam)
      case None => Fail(400, "Invalid page id")
      case Some(pageId) =>
        match body
        case None => Fail(400, BindError)
        case Some(info) =>
          match OwnedBook(st, caller.id, bookId, faults, "You can't update page from this book")
          case Refused(reply) => reply
          case Owned(_) =>
            if Update in faults then Fail(500, "Something went wrong")
            else if pageId !in st.pages then Fail(404, "Page not found")
            else
              var updated := UpdatedPage(st.pages[pageId], info, now);
              Reply(200, "Updated page", PageData(updated), None, [PageUpdated(updated)])
  }

  /**
   * `DeletePage` (routes/book.go:260-353): delete the page document, then
   * `$pull` its id from the book. The page id is not checked against `book.Pages`.
   */
  function DeletePage(st: State, caller: User, bookIdParam: string, pageIdParam: string,
                      faults: set<Step>): (r: Reply)
    ensures ObjectIdFromHex(bookIdParam).None? ==> r == Fail(400, "Invalid book id")
    ensures ObjectIdFromHex(bookIdParam).Some? && ObjectIdFromHex(pageIdParam).None? ==> r == Fail(400, "Invalid page id")
    ensures r.writes != [] ==> AuthoredBy(st, bookIdParam, caller.id)
    ensures |r.writes| <= 2
    ensures r.writes != [] ==>
              ObjectIdFromHex(pageIdParam).Some? && ObjectIdFromHex(pageIdParam).value in st.pages
              && r.writes[0] == PageDeleted(ObjectIdFromHex(pageIdParam).value)
    ensures |r.writes| == 2 ==>
              var book := BookAt(st, bookIdParam).value;
              r.writes[1] == BookUpdated(book.(pages := Pull(book.pages, ObjectIdFromHex(pageIdParam).value)))
    ensures r.status == 200 <==> |r.writes| == 2
    ensures |r.writes| == 1 <==> r.writes != [] && Update in faults
    ensures |r.writes| == 1 ==> r.status == 500
    ensures Admitted(st, caller, bookIdParam, faults) && ObjectIdFromHex(pageIdParam).Some? ==>
              var pageId := ObjectIdFromHex(pageIdParam).value;
              if Delete in faults then r == Fail(500, "Failed to delete")
              else if pageId !in st.pages then r == Fail(404, "Page not found")
              else if Update in faults then r == Answer(500, "Failed to remove page", [PageDeleted(pageId)])
              else r.status == 200
  {
    match ObjectIdFromHex(bookIdParam)
    case None => Fail(400, "Invalid book id")
    case Some(bookId) =>
      match ObjectIdFromHex(pageIdParam)
      case None => Fail(400, "Invalid page id")
      case Some(pageId) =>
        match OwnedBook(st, caller.id, bookId, faults, "You can't delete page from this book")
        case Refused(reply) => reply
        case Owned(book) =>
          if Delete in faults then Fail(500, "Failed to delete")
          else if pageId !in st.pages then Fail(404, "Page not found")
          else if Update in faults then Answer(500, "Failed to remove page", [PageDeleted(pageId)])
          else Answer(200, "Removed page from book",
                      [PageDeleted(pageId), BookUpdated(book.(pages := Pull(book.pages, pageId)))])
  }

  /** `UpdateBook` (routes/book.go:355-449). */
  function UpdateBook(st: State, caller: User, bookIdParam: string, body: Option<BookInfo>,
                      now: Time, faults: set<Step>): (r: Reply)
    ensures ObjectIdFromHex(bookIdParam).None? ==> r == Fail(400, "Invalid book id")
    ensures r.writes != [] ==> AuthoredBy(st, bookIdParam, caller.id)
    ensures r.status == 200 <==> r.writes != []
    ensures r.writes != [] ==>
              body.Some? && r.writes == [BookUpdated(UpdatedBook(BookAt(st, bookIdParam).value, body.value, now))]
    ensures Admitted(st, caller, bookIdParam, faults) && body.Some? ==>
              if Update in faults then r == Fail(500, "Something went wrong") else r.status == 200
  {
    match ObjectIdFromHex(bookIdParam)
    case None => Fail(400, "Invalid book id")
    case Some(bookId) =>
      match body
      case None => Fail(400, BindError)
      case Some(info) =>
        match OwnedBook(st, caller.id, bookId, faults, "You can't update this book")
        case Refused(reply) => reply
        case Owned(book) =>
          if Update in faults then Fail(500, "Something went wrong")
          else Answer(200, "Updated book", [BookUpdated(UpdatedBook(book, info, now))])
  }

  /** `DeleteBook` (routes/book.go:451-509): only the book document goes; its pages stay. */
  function DeleteBook(st: State, caller: User, bookIdParam: string, faults: set<Step>): (r: Reply)
    ensures ObjectIdFromHex(bookIdParam).None? ==> r == Fail(400, "Invalid book id")
    ensures r.writes != [] ==> AuthoredBy(st, bookIdParam, caller.id)
    ensures r.status == 200 <==> r.writes != []
    ensures r.writes != [] ==> r.writes == [BookDeleted(ObjectIdFromHex(bookIdParam).value)]
    ensures Admitted(st, caller, bookIdParam, faults) ==>
              if Delete in faults then r == Fail(500, "Something went wrong") else r.status == 200
  {
    match ObjectIdFromHex(bookIdParam)
    case None => Fail(400, "Invalid book id")
    case Some(bookId) =>
      match OwnedBook(st, caller.id, bookId, faults, "You can't delete this book")
      case Refused(reply) => reply
      case Owned(_) =>
        if Delete in faults then Fail(500, "Something went wrong")
        else Answer(200, "Book deleted", [BookDeleted(bookId)])
  }

  /** `GetBooks` (routes/book.go:511-536): every stored book, unfiltered. */
  function GetBooks(st: State, faults: set<Step>): (r: Reply)
    ensures r.writes == []
    ensures r.status == 200 <==> Find !in faults
    ensures r.status == 200 ==> r.data == BooksData(st.books.Values)
  {
    if Find in faults then Fail(500, StoreError)
    else Reply(200, "Books retrieved", BooksData(st.books.Values), None, [])
  }

  /** `GetBook` (routes/book.go:538-581): the stored book, whoever asks. */
  function GetBook(st: State, bookIdParam: string, faults: set<Step>): (r: Reply)
    ensures r.writes == []
    ensures ObjectIdFromHex(bookIdParam).None? ==> r.status == 400
    ensures r.status == 200 <==> Find !in faults && BookAt(st, bookIdParam).Some?
    ensures r.status == 200 ==> r.data == BookData(BookAt(st, bookIdParam).value)
    ensures ObjectIdFromHex(bookIdParam).Some? && Find !in faults && BookAt(st, bookIdParam).None? ==> r.status == 404
  {
    match ObjectIdFromHex(bookIdParam)
    case None => Fail(400, "Invalid book id")
    case Some(bookId) =>
      if Find in faults then Fail(500, StoreError)
      else if bookId !in st.books then Fail(404, "Book not found")
      else Reply(200, "Book retrieved", BookData(st.books[bookId]), None, [])
  }

  /**
   * `ChangeBookCover` (routes/book.go:583-681): upload, persist the new id
   * with `UpdateByID` (zero documents modified is a failure), and only then
   * destroy the previous cover, whose failure is only logged. An upload
   * failure answers 200 "Failed to upload file".
   */
  function ChangeBookCover(st: State, caller: User, bookIdParam: string, fileAttached: bool,
                           uploaded: string, now: Time, faults: set<Step>): (r: Reply)
    ensures ObjectIdFromHex(bookIdParam).None? ==> r == Fail(400, "Invalid book id")
    ensures r.writes != [] ==> AuthoredBy(st, bookIdParam, caller.id) && fileAttached && Upload !in faults
    ensures r.writes != [] ==> r.writes[0] == AssetUploaded(uploaded)
    ensures |r.writes| <= 3
    ensures |r.writes| >= 2 ==>
              var old_ := BookAt(st, bookIdParam).value;
              && r.writes[1] == BookUpdated(old_.(updatedAt := now, cover := uploaded))
              && r.writes[2..] == DestroyOld(old_.cover, faults)
    ensures |r.writes| == 1 ==> r.status == 500
    ensures r.status == 200 && r.writes != [] <==> |r.writes| >= 2
    ensures Admitted(st, caller, bookIdParam, faults) ==>
              var book := BookAt(st, bookIdParam).value;
              if !fileAttached then r == Fail(500, MissingFile)
              else if Upload in faults then r == Fail(200, "Failed to upload file")
              else if Update in faults || book.(updatedAt := now, cover := uploaded) == book then
                r == Answer(500, "Failed to change cover", [AssetUploaded(uploaded)])
              else r.status == 200 && r.data == AssetData(uploaded) && |r.writes| >= 2
  {
    match ObjectIdFromHex(bookIdParam)
    case None => Fail(400, "Invalid book id")
    case Some(bookId) =>
      match OwnedBook(st, caller.id, bookId, faults, "You can't change this book's cover")
      case Refused(reply) => reply
      case Owned(book) =>
        if !fileAttached then Fail(500, MissingFile)
        else if Upload in faults then Fail(200, "Failed to upload file")
        else
          var updated := book.(updatedAt := now, cover := uploaded);
          if Update in faults || updated == book then
            Answer(500, "Failed to change cover", [AssetUploaded(uploaded)])
          else
            Reply(200, "Changed book cover", AssetData(uploaded), None,
                  [AssetUploaded(uploaded), BookUpdated(updated)] + DestroyOld(book.cover, faults))
  }

  /**
   * `ChangePageCover` (routes/book.go:683-806): as `ChangeBookCover`, but the
   * new id is persisted with `FindOneAndUpdate`, whose pre-image supplies the
   * cover to destroy; a missing page answers 500 "Page not found".
   */
  function ChangePageCover(st: State, caller: User, bookIdParam: string, pageIdParam: string,
                           fileAttached: bool, uploaded: string, now: Time, faults: set<Step>): (r: Reply)
    ensures ObjectIdFromHex(bookIdParam).None? ==> r == Fail(400, "Invalid book id")
    ensures ObjectIdFromHex(bookIdParam).Some? && ObjectIdFromHex(pageIdParam).None? ==> r == Fail(400, "Invalid page id")
    ensures r.writes != [] ==> AuthoredBy(st, bookIdParam, caller.id) && fileAttached && Upload !in faults
    ensures r.writes != [] ==> r.writes[0] == AssetUploaded(uploaded)
    ensures |r.writes| <= 3
    ensures |r.writes| >= 2 ==>
              && ObjectIdFromHex(pageIdParam).Some? && ObjectIdFromHex(pageIdParam).value in st.pages
              && var pre := st.pages[ObjectIdFromHex(pageIdParam).value];
                 && r.writes[1] == PageUpdated(pre.(updatedAt := now, cover := uploaded))
                 && r.writes[2..] == DestroyOld(pre.cover, faults)
    ensures |r.writes| == 1 ==> r.status == 500
    ensures r.status == 200 && r.writes != [] <==> |r.writes| >= 2
    ensures Admitted(st, caller, bookIdParam, faults) && ObjectIdFromHex(pageIdParam).Some? ==>
              if !fileAttached then r == Fail(500, MissingFile)
              else if Upload in faults then r == Fail(200, "Failed to upload file")
              else if Update in faults then r == Answer(500, "Failed to change cover", [AssetUploaded(uploaded)])
              else if ObjectIdFromHex(pageIdParam).value !in st.pages then
                r == Answer(500, "Page not found", [AssetUploaded(uploaded)])
              else r.status == 200 && r.data == AssetData(uploaded) && |r.writes| >= 2
  {
    match ObjectIdFromHex(bookIdParam)
    case None => Fail(400, "Invalid book id")
    case Some(bookId) =>
      match ObjectIdFromHex(pageIdParam)
      case None => Fail(400, "Invalid page id")
      case Some(pageId) =>
        match OwnedBook(st, caller.id, bookId, faults, "You can't change this page's cover")
        case Refused(reply) => reply
        case Owned(_) =>
          if !fileAttached then Fail(500, MissingFile)
          else if Upload in faults then Fail(200, "Failed to upload file")
          else if Update in faults then Answer(500, "Failed to change cover", [AssetUploaded(uploaded)])
          else if pageId !in st.pages then Answer(500, "Page not found", [AssetUploaded(uploaded)])
          else
            var pre := st.pages[pageId];
            Reply(200, "Changed page cover", AssetData(uploaded), None,
                  [AssetUploaded(uploaded), PageUpdated(pre.(updatedAt := now, cover := uploaded))]
                  + DestroyOld(pre.cover, faults))
  }
}

/**
 * What the book and page handlers promise across the aggregate: the
 * ownership gate, the order of the two writes of `AddPage` and `DeletePage`
 * and the windows a failure between them leaves, partial updates, and the
 * order of a cover replacement.
 */
module BookProperties {
  import opened Wrappers
  import opened ObjectIds
  import opened Text
  import opened Records
  import opened Documents
  import opened Responses
  import opened BookRoutes

  // ----- The ownership gate.

  /** Every mutating handler answers 401 and writes nothing when the caller is not the book's author. */
  lemma NonAuthorIsRefused(st: State, caller: User, bookIdParam: string, pageIdParam: string,
                           page: Page, pageInfo: PageInfo, bookInfo: BookInfo, newId: ObjectId,
                           fileAttached: bool, uploaded: string, now: Time, faults: set<Step>)
    requires ObjectIdFromHex(pageIdParam).Some? && page.title != ""
    requires BookAt(st, bookIdParam).Some? && BookAt(st, bookIdParam).value.author != caller.id
    requires Find !in faults
    ensures AddPage(st, caller, bookIdParam, Some(page), newId, now, faults) == Fail(401, "You can't add page to this book")
    ensures UpdatePage(st, caller, bookIdParam, pageIdParam, Some(pageInfo), now, faults) == Fail(401, "You can't update page from this book")
    ensures DeletePage(st, caller, bookIdParam, pageIdParam, faults) == Fail(401, "You can't delete page from this book")
    ensures UpdateBook(st, caller, bookIdParam, Some(bookInfo), now, faults) == Fail(401, "You can't update this book")
    ensures DeleteBook(st, caller, bookIdParam, faults) == Fail(401, "You can't delete this book")
    ensures ChangeBookCover(st, caller, bookIdParam, fileAttached, uploaded, now, faults) == Fail(401, "You can't change this book's cover")
    ensures ChangePageCover(st, caller, bookIdParam, pageIdParam, fileAttached, uploaded, now, faults) == Fail(401, "You can't change this page's cover")
  {
  }

  /** A book id that parses but names no book answers 404 before ownership is looked at. */
  lemma MissingBookIsNotFound(st: State, caller: User, bookIdParam: string, pageIdParam: string,
                              page: Page, pageInfo: PageInfo, bookInfo: BookInfo, newId: ObjectId,
                              fileAttached: bool, uploaded: string, now: Time, faults: set<Step>)
    requires ObjectIdFromHex(bookIdParam).Some? && ObjectIdFromHex(pageIdParam).Some? && page.title != ""
    requires BookAt(st, bookIdParam).None? && Find !in faults
    ensures AddPage(st, caller, bookIdParam, Some(page), newId, now, faults) == Fail(404, "Book not found")
    ensures UpdatePage(st, caller, bookIdParam, pageIdParam, Some(pageInfo), now, faults) == Fail(404, "Book not found")
    ensures DeletePage(st, caller, bookIdParam, pageIdParam, faults) == Fail(404, "Book not found")
    ensures UpdateBook(st, caller, bookIdParam, Some(bookInfo), now, faults) == Fail(404, "Book not found")
    ensures DeleteBook(st, caller, bookIdParam, faults) == Fail(404, "Book not found")
    ensures ChangeBookCover(st, caller, bookIdParam, fileAttached, uploaded, now, faults) == Fail(404, "Book not found")
    ensures ChangePageCover(st, caller, bookIdParam, pageIdParam, fileAttached, uploaded, now, faults) == Fail(404, "Book not found")
  {
  }

  // ----- CreateBook.

  /** A created book is stored under its fresh id and nothing else changes. */
  lemma CreateBookStoresOneBook(st: State, caller: User, body: Option<Book>, newId: ObjectId,
                                now: Time, faults: set<Step>)
    ensures var r := CreateBook(st, caller, body, newId, now, faults);
            var after := Replay(st, r.writes);
            && (r.status == 201 ==> after == st.(books := st.books[newId := r.data.book]))
            && (r.status != 201 ==> after == st)
  {
    var r := CreateBook(st, caller, body, newId, now, faults);
    if r.status == 201 {
      ReplayOne(st, r.writes[0]);
    }
  }

  // ----- AddPage: insert the page, then push its id.

  /** Whatever step fails, `AddPage` never leaves a book listing a page that is not stored. */
  lemma AddPageKeepsReferencesResolved(st: State, caller: User, bookIdParam: string, body: Option<Page>,
                                       newId: ObjectId, now: Time, faults: set<Step>)
    requires WellFormed(st) && NoDanglingPages(st)
    ensures NoDanglingPages(Replay(st, AddPage(st, caller, bookIdParam, body, newId, now, faults).writes))
  {
    var r := AddPage(st, caller, bookIdParam, body, newId, now, faults);
    if |r.writes| == 1 {
      assert r.writes == [r.writes[0]];
      ReplayOne(st, r.writes[0]);
    } else if |r.writes| == 2 {
      var book := BookAt(st, bookIdParam).value;
      assert r.writes == [r.writes[0], r.writes[1]];
      ReplayTwo(st, r.writes[0], r.writes[1]);
      var after := Replay(st, r.writes);
      assert after.pages == st.pages[newId := StampPage(body.value, newId, now)];
      assert after.books == st.books[book.id := Pushed(book, newId, now)];
      forall id, i | id in after.books && 0 <= i < |after.books[id].pages|
        ensures after.books[id].pages[i] in after.pages
      {
        if id == book.id && i < |book.pages| {
          assert after.books[id].pages[i] == st.books[id].pages[i];
        }
      }
    }
  }

  /** When `AddPage` does not answer 201 the books are untouched; a failed push leaves the new page stored but listed nowhere. */
  lemma AddPageFailureWindows(st: State, caller: User, bookIdParam: string, body: Option<Page>,
                              newId: ObjectId, now: Time, faults: set<Step>)
    requires NoDanglingPages(st)
    ensures var r := AddPage(st, caller, bookIdParam, body, newId, now, faults);
            var after := Replay(st, r.writes);
            && (r.status != 201 ==> after.books == st.books)
            && (|r.writes| == 1 ==> newId in after.pages && !Listed(after, newId))
  {
    var r := AddPage(st, caller, bookIdParam, body, newId, now, faults);
    if |r.writes| == 1 {
      assert r.writes == [r.writes[0]];
      ReplayOne(st, r.writes[0]);
      UnstoredIsUnlisted(st, newId);
    }
  }

  /** After a successful `AddPage`, reading the book back shows the new id at the end of its page list. */
  lemma AddPageThenGetBook(st: State, caller: User, bookIdParam: string, body: Option<Page>,
                           newId: ObjectId, now: Time, faults: set<Step>, readFaults: set<Step>)
    requires WellFormed(st)
    requires AddPage(st, caller, bookIdParam, body, newId, now, faults).status == 201
    requires Find !in readFaults
    ensures var after := Replay(st, AddPage(st, caller, bookIdParam, body, newId, now, faults).writes);
            var r := GetBook(after, bookIdParam, readFaults);
            r.status == 200 && r.data.book.pages == BookAt(st, bookIdParam).value.pages + [newId]
  {
    var r := AddPage(st, caller, bookIdParam, body, newId, now, faults);
    assert r.writes == [r.writes[0], r.writes[1]];
    ReplayTwo(st, r.writes[0], r.writes[1]);
  }

  /** Deleting the page just added restores the book's page list and the pages collection. */
  lemma AddPageThenDeletePage(st: State, caller: User, bookIdParam: string, body: Option<Page>,
                              newId: ObjectId, now: Time, faults: set<Step>)
    requires WellFormed(st) && NoDanglingPages(st)
    requires AddPage(st, caller, bookIdParam, body, newId, now, faults).status == 201
    ensures var st1 := Replay(st, AddPage(st, caller, bookIdParam, body, newId, now, faults).writes);
            var r := DeletePage(st1, caller, bookIdParam, Hex(newId), {});
            var st2 := Replay(st1, r.writes);
            var id := ObjectIdFromHex(bookIdParam).value;
            && r.status == 200
            && st2.pages == st.pages
            && id in st2.books && st2.books[id].pages == st.books[id].pages
  {
    var r1 := AddPage(st, caller, bookIdParam, body, newId, now, faults);
    var id := ObjectIdFromHex(bookIdParam).value;
    var book := st.books[id];
    assert r1.writes == [r1.writes[0], r1.writes[1]];
    ReplayTwo(st, r1.writes[0], r1.writes[1]);
    var st1 := Replay(st, r1.writes);
    assert st1.books[id] == Pushed(book, newId, now);
    HexRoundTrip(newId);
    var r := DeletePage(st1, caller, bookIdParam, Hex(newId), {});
    assert r.writes == [r.writes[0], r.writes[1]];
    ReplayTwo(st1, r.writes[0], r.writes[1]);
    UnstoredIsUnlisted(st, newId);
    assert newId !in book.pages;
    PullUndoesPush(book.pages, newId);
    assert Replay(st1, r.writes).pages == st.pages;
  }

  // ----- DeletePage: delete the page, then pull its id.

  /** A failed pull after the page was deleted leaves its book listing a page that is gone. */
  lemma DeletePagePullFailureLeavesDanglingReference(st: State, caller: User, bookIdParam: string,
                                                     pageIdParam: string, faults: set<Step>)
    requires WellFormed(st)
    requires var r := DeletePage(st, caller, bookIdParam, pageIdParam, faults); r.writes != [] && r.status == 500
    requires ObjectIdFromHex(pageIdParam).Some? && BookAt(st, bookIdParam).Some?
    requires ObjectIdFromHex(pageIdParam).value in BookAt(st, bookIdParam).value.pages
    ensures !NoDanglingPages(Replay(st, DeletePage(st, caller, bookIdParam, pageIdParam, faults).writes))
  {
    var r := DeletePage(st, caller, bookIdParam, pageIdParam, faults);
    var pid := ObjectIdFromHex(pageIdParam).value;
    var id := ObjectIdFromHex(bookIdParam).value;
    assert r.writes == [PageDeleted(pid)];
    ReplayOne(st, r.writes[0]);
    var after := Replay(st, r.writes);
    var i :| 0 <= i < |st.books[id].pages| && st.books[id].pages[i] == pid;
    assert after.books[id].pages[i] !in after.pages;
  }

  /**
   * The page id is never checked against the book's list: the author of one
   * book can delete a page another author's book lists, which then dangles.
   */
  lemma DeletePageIgnoresMembership(st: State, caller: User, mine: ObjectId, theirs: ObjectId, pid: ObjectId)
    requires WellFormed(st)
    requires mine in st.books && st.books[mine].author == caller.id
    requires theirs in st.books && theirs != mine && st.books[theirs].author != caller.id
    requires pid in st.books[theirs].pages && pid in st.pages
    ensures var r := DeletePage(st, caller, Hex(mine), Hex(pid), {});
            && r.status == 200
            && pid !in Replay(st, r.writes).pages
            && !NoDanglingPages(Replay(st, r.writes))
  {
    HexRoundTrip(mine);
    HexRoundTrip(pid);
    var r := DeletePage(st, caller, Hex(mine), Hex(pid), {});
    assert r.writes == [r.writes[0], r.writes[1]];
    ReplayTwo(st, r.writes[0], r.writes[1]);
    var after := Replay(st, r.writes);
    assert after.books[theirs] == st.books[theirs];
    var i :| 0 <= i < |st.books[theirs].pages| && st.books[theirs].pages[i] == pid;
    assert after.books[theirs].pages[i] !in after.pages;
  }

  /** A successful `DeletePage` keeps every reference resolved when no other book lists the page. */
  lemma DeletePageKeepsReferencesResolved(st: State, caller: User, bookIdParam: string,
                                          pageIdParam: string, faults: set<Step>)
    requires WellFormed(st) && NoDanglingPages(st)
    requires DeletePage(st, caller, bookIdParam, pageIdParam, faults).status == 200
    requires forall id :: id in st.books && id != ObjectIdFromHex(bookIdParam).value ==>
               ObjectIdFromHex(pageIdParam).value !in st.books[id].pages
    ensures NoDanglingPages(Replay(st, DeletePage(st, caller, bookIdParam, pageIdParam, faults).writes))
  {
    var r := DeletePage(st, caller, bookIdParam, pageIdParam, faults);
    var pid := ObjectIdFromHex(pageIdParam).value;
    var bid := ObjectIdFromHex(bookIdParam).value;
    var book := st.books[bid];
    assert r.writes == [r.writes[0], r.writes[1]];
    ReplayTwo(st, r.writes[0], r.writes[1]);
    var after := Replay(st, r.writes);
    assert after.pages == st.pages - {pid};
    assert after.books == st.books[bid := book.(pages := Pull(book.pages, pid))];
    forall id, i | id in after.books && 0 <= i < |after.books[id].pages|
      ensures after.books[id].pages[i] in after.pages
    {
      var x := after.books[id].pages[i];
      if id == bid {
        var kept := Pull(book.pages, pid);
        assert x in kept && x != pid;
        assert multiset(kept)[x] == multiset(book.pages)[x];
        assert x in multiset(book.pages);
        var j :| 0 <= j < |book.pages| && book.pages[j] == x;
      } else {
        assert after.books[id].pages[i] == st.books[id].pages[i];
      }
    }
  }

  // ----- UpdatePage, UpdateBook: partial updates.

  /** Applying the same partial update twice is applying it once with the later timestamp. */
  lemma UpdatedBookAgain(b: Book, info: BookInfo, t1: Time, t2: Time)
    ensures UpdatedBook(UpdatedBook(b, info, t1), info, t2) == UpdatedBook(b, info, t1).(updatedAt := t2)
  {
  }

  lemma UpdatedPageAgain(p: Page, info: PageInfo, t1: Time, t2: Time)
    ensures UpdatedPage(UpdatedPage(p, info, t1), info, t2) == UpdatedPage(p, info, t1).(updatedAt := t2)
  {
  }

  /** Repeating an `UpdateBook` request changes nothing but `updatedAt`. */
  lemma UpdateBookTwice(st: State, caller: User, bookIdParam: string, info: BookInfo,
                        now1: Time, faults1: set<Step>, now2: Time, faults2: set<Step>)
    requires WellFormed(st)
    requires UpdateBook(st, caller, bookIdParam, Some(info), now1, faults1).status == 200
    ensures var st1 := Replay(st, UpdateBook(st, caller, bookIdParam, Some(info), now1, faults1).writes);
            var r := UpdateBook(st1, caller, bookIdParam, Some(info), now2, faults2);
            var id := ObjectIdFromHex(bookIdParam).value;
            r.status == 200 ==> Replay(st1, r.writes) == st1.(books := st1.books[id := st1.books[id].(updatedAt := now2)])
  {
    var id := ObjectIdFromHex(bookIdParam).value;
    var r1 := UpdateBook(st, caller, bookIdParam, Some(info), now1, faults1);
    var b1 := UpdatedBook(st.books[id], info, now1);
    assert r1.writes == [BookUpdated(b1)];
    ReplayOne(st, BookUpdated(b1));
    var st1 := st.(books := st.books[id := b1]);
    assert Replay(st, r1.writes) == st1;
    var r := UpdateBook(st1, caller, bookIdParam, Some(info), now2, faults2);
    if r.status == 200 {
      assert BookAt(st1, bookIdParam).value == b1;
      assert r.writes == [BookUpdated(UpdatedBook(b1, info, now2))];
      ReplayOne(st1, r.writes[0]);
      UpdatedBookAgain(st.books[id], info, now1, now2);
    }
  }

  lemma ReplayPageUpdate(st: State, p: Page)
    ensures Replay(st, [PageUpdated(p)]) == st.(pages := st.pages[p.id := p])
  {
    ReplayOne(st, PageUpdated(p));
  }

  /** Repeating an `UpdatePage` request changes nothing but `updatedAt`. */
  lemma UpdatePageTwice(st: State, caller: User, bookIdParam: string, pageIdParam: string, info: PageInfo,
                        now1: Time, faults1: set<Step>, now2: Time, faults2: set<Step>)
    requires WellFormed(st)
    requires UpdatePage(st, caller, bookIdParam, pageIdParam, Some(info), now1, faults1).status == 200
    ensures var st1 := Replay(st, UpdatePage(st, caller, bookIdParam, pageIdParam, Some(info), now1, faults1).writes);
            var r := UpdatePage(st1, caller, bookIdParam, pageIdParam, Some(info), now2, faults2);
            var pid := ObjectIdFromHex(pageIdParam).value;
            r.status == 200 ==> Replay(st1, r.writes) == st1.(pages := st1.pages[pid := st1.pages[pid].(updatedAt := now2)])
  {
    var pid := ObjectIdFromHex(pageIdParam).value;
    var r1 := UpdatePage(st, caller, bookIdParam, pageIdParam, Some(info), now1, faults1);
    var p1 := UpdatedPage(st.pages[pid], info, now1);
    assert r1.writes == [PageUpdated(p1)];
    assert p1.id == pid;
    ReplayPageUpdate(st, p1);
    var st1 := st.(pages := st.pages[pid := p1]);
    var r := UpdatePage(st1, caller, bookIdParam, pageIdParam, Some(info), now2, faults2);
    if r.status == 200 {
      var p2 := UpdatedPage(p1, info, now2);
      assert st1.pages[pid] == p1;
      assert r.writes == [PageUpdated(p2)];
      ReplayPageUpdate(st1, p2);
      UpdatedPageAgain(st.pages[pid], info, now1, now2);
    }
  }

  // ----- DeleteBook.

  /** `DeleteBook` removes the book document only; the pages collection is never touched. */
  lemma DeleteBookLeavesPages(st: State, caller: User, bookIdParam: string, faults: set<Step>)
    ensures var r := DeleteBook(st, caller, bookIdParam, faults);
            var after := Replay(st, r.writes);
            && after.pages == st.pages && after.users == st.users && after.assets == st.assets
            && (r.status == 200 ==> after.books == st.books - {ObjectIdFromHex(bookIdParam).value})
            && (r.status != 200 ==> after == st)
  {
    var r := DeleteBook(st, caller, bookIdParam, faults);
    if r.writes != [] {
      ReplayOne(st, r.writes[0]);
    }
  }

  // ----- Cover replacement: upload, persist, then destroy the old asset.

  /** The store after the writes of a successful cover change. */
  lemma ReplayCoverChange(st: State, uploaded: string, persisted: Write, oldCover: string, faults: set<Step>)
    requires persisted.BookUpdated? || persisted.PageUpdated?
    ensures var after := Replay(st, [AssetUploaded(uploaded), persisted] + DestroyOld(oldCover, faults));
            var mid := Apply(st, persisted);
            && after.books == mid.books && after.pages == mid.pages && after.users == st.users
            && after.assets == if oldCover != "" && Destroy !in faults then (st.assets + {uploaded}) - {oldCover}
                               else st.assets + {uploaded}
  {
    if oldCover != "" && Destroy !in faults {
      assert [AssetUploaded(uploaded), persisted] + DestroyOld(oldCover, faults)
          == [AssetUploaded(uploaded), persisted, AssetDestroyed(oldCover)];
      ReplayThree(st, AssetUploaded(uploaded), persisted, AssetDestroyed(oldCover));
    } else {
      assert [AssetUploaded(uploaded), persisted] + DestroyOld(oldCover, faults)
          == [AssetUploaded(uploaded), persisted];
      ReplayTwo(st, AssetUploaded(uploaded), persisted);
    }
  }

  /**
   * A book cover change that reaches the store: after a persist failure only
   * the new asset was added; after success the book shows the new cover and
   * the old asset is gone unless its destruction failed.
   */
  lemma ChangeBookCoverEffects(st: State, caller: User, bookIdParam: string, fileAttached: bool,
                               uploaded: string, now: Time, faults: set<Step>)
    requires WellFormed(st)
    ensures var r := ChangeBookCover(st, caller, bookIdParam, fileAttached, uploaded, now, faults);
            var after := Replay(st, r.writes);
            && (r.writes == [] ==> after == st)
            && (|r.writes| == 1 ==> after == st.(assets := st.assets + {uploaded}))
            && (|r.writes| >= 2 ==>
                  var id := ObjectIdFromHex(bookIdParam).value;
                  var oldCover := st.books[id].cover;
                  && after.books == st.books[id := st.books[id].(updatedAt := now, cover := uploaded)]
                  && (uploaded != oldCover ==> uploaded in after.assets)
                  && (oldCover != "" && Destroy !in faults ==> oldCover !in after.assets)
                  && (oldCover == "" || Destroy in faults ==> after.assets == st.assets + {uploaded}))
  {
    var r := ChangeBookCover(st, caller, bookIdParam, fileAttached, uploaded, now, faults);
    if |r.writes| == 1 {
      assert r.writes == [AssetUploaded(uploaded)];
      ReplayOne(st, AssetUploaded(uploaded));
    } else if |r.writes| >= 2 {
      var id := ObjectIdFromHex(bookIdParam).value;
      var book := st.books[id];
      var persisted := BookUpdated(book.(updatedAt := now, cover := uploaded));
      assert r.writes == [AssetUploaded(uploaded), persisted] + DestroyOld(book.cover, faults);
      ReplayCoverChange(st, uploaded, persisted, book.cover, faults);
    }
  }

  /** The same for a page cover; the pre-update page supplies the asset to destroy. */
  lemma ChangePageCoverEffects(st: State, caller: User, bookIdParam: string, pageIdParam: string,
                               fileAttached: bool, uploaded: string, now: Time, faults: set<Step>)
    requires WellFormed(st)
    ensures var r := ChangePageCover(st, caller, bookIdParam, pageIdParam, fileAttached, uploaded, now, faults);
            var after := Replay(st, r.writes);
            && (r.writes == [] ==> after == st)
            && (|r.writes| == 1 ==> after == st.(assets := st.assets + {uploaded}))
            && (|r.writes| >= 2 ==>
                  var pid := ObjectIdFromHex(pageIdParam).value;
                  var oldCover := st.pages[pid].cover;
                  && after.pages == st.pages[pid := st.pages[pid].(updatedAt := now, cover := uploaded)]
                  && after.books == st.books
                  && (uploaded != oldCover ==> uploaded in after.assets)
                  && (oldCover != "" && Destroy !in faults ==> oldCover !in after.assets)
                  && (oldCover == "" || Destroy in faults ==> after.assets == st.assets + {uploaded}))
  {
    var r := ChangePageCover(st, caller, bookIdParam, pageIdParam, fileAttached, uploaded, now, faults);
    if |r.writes| == 1 {
      assert r.writes == [AssetUploaded(uploaded)];
      ReplayOne(st, AssetUploaded(uploaded));
    } else if |r.writes| >= 2 {
      var pid := ObjectIdFromHex(pageIdParam).value;
      var pre := st.pages[pid];
      var persisted := PageUpdated(pre.(updatedAt := now, cover := uploaded));
      assert r.writes == [AssetUploaded(uploaded), persisted] + DestroyOld(pre.cover, faults);
      ReplayCoverChange(st, uploaded, persisted, pre.cover, faults);
    }
  }
}

/**
 * The persistence the handlers talk to, as an in-memory value: the `users`,
 * `books` and `pages` collections, the set of live remote (media host)
 * asset ids, the store steps a run can fail at, and the writes a handler
 * performs, in the order it performs them.
 */
module Documents {
  import opened Wrappers
  import opened ObjectIds
  import opened Records

  /** The store and remote steps; a handler performs each kind at most once. */
  datatype Step = Find | Insert | Update | Delete | Upload | Destroy | HashPassword | Sign

  /**
   * The collections. `users` is kept in natural (insertion) order, because a
   * lookup by email returns the first match; books and pages are only ever
   * addressed by id.
   */
  datatype State = State(users: seq<User>, books: map<ObjectId, Book>,
                         pages: map<ObjectId, Page>, assets: set<string>)

  /** One write against the store or the media host. */
  datatype Write =
    | UserInserted(user: User)
    | UserUpdated(user: User)
    | BookInserted(book: Book)
    | BookUpdated(book: Book)
    | BookDeleted(id: ObjectId)
    | PageInserted(page: Page)
    | PageUpdated(page: Page)
    | PageDeleted(id: ObjectId)
    | AssetUploaded(asset: string)
    | AssetDestroyed(asset: string)

  /** The first user with this email, as `FindOne` returns it. */
  function UserByEmail(users: seq<User>, email: string): (r: Option<User>)
    ensures r.Some? ==> r.value in users && r.value.email == email
    ensures r.None? ==> forall i :: 0 <= i < |users| ==> users[i].email != email
  {
    if users == [] then None
    else if users[0].email == email then Some(users[0])
    else UserByEmail(users[1..], email)
  }

  /** The first user with this id. */
  function UserById(users: seq<User>, id: ObjectId): (r: Option<User>)
    ensures r.Some? ==> r.value in users && r.value.id == id
    ensures r.None? ==> forall i :: 0 <= i < |users| ==> users[i].id != id
  {
    if users == [] then None
    else if users[0].id == id then Some(users[0])
    else UserById(users[1..], id)
  }

  /** `UpdateByID` on users: the first document with `u.id` becomes `u`; the rest keep their place. */
  function ReplaceUser(users: seq<User>, u: User): (r: seq<User>)
    ensures |r| == |users|
    ensures forall i :: 0 <= i < |users| ==> r[i].id == users[i].id
    ensures forall i :: 0 <= i < |users| && users[i].id != u.id ==> r[i] == users[i]
    ensures UserById(users, u.id).Some? ==> UserById(r, u.id) == Some(u)
    ensures UserById(users, u.id).None? ==> r == users
  {
    if users == [] then []
    else if users[0].id == u.id then [u] + users[1..]
    else [users[0]] + ReplaceUser(users[1..], u)
  }

  /** `$pull`: every occurrence of `x` removed, every other entry kept in order. */
  function Pull(s: seq<ObjectId>, x: ObjectId): (r: seq<ObjectId>)
    ensures x !in r
    ensures forall y :: y != x ==> multiset(r)[y] == multiset(s)[y]
  {
    if s == [] then []
    else
      assert s == [s[0]] + s[1..];
      if s[0] == x then Pull(s[1..], x) else [s[0]] + Pull(s[1..], x)
  }

  /** The collection a write lands in. */
  predicate OnUsers(w: Write) { w.UserInserted? || w.UserUpdated? }
  predicate OnBooks(w: Write) { w.BookInserted? || w.BookUpdated? || w.BookDeleted? }
  predicate OnPages(w: Write) { w.PageInserted? || w.PageUpdated? || w.PageDeleted? }
  predicate OnAssets(w: Write) { w.AssetUploaded? || w.AssetDestroyed? }

  /** The effect of one write; every collection it does not land in is left alone. */
  function Apply(st: State, w: Write): (r: State)
    ensures !OnUsers(w) ==> r.users == st.users
    ensures !OnBooks(w) ==> r.books == st.books
    ensures !OnPages(w) ==> r.pages == st.pages
    ensures !OnAssets(w) ==> r.assets == st.assets
  {
    match w
    case UserInserted(u) => st.(users := st.users + [u])
    case UserUpdated(u) => st.(users := ReplaceUser(st.users, u))
    case BookInserted(b) => st.(books := st.books[b.id := b])
    case BookUpdated(b) => st.(books := st.books[b.id := b])
    case BookDeleted(id) => st.(books := st.books - {id})
    case PageInserted(p) => st.(pages := st.pages[p.id := p])
    case PageUpdated(p) => st.(pages := st.pages[p.id := p])
    case PageDeleted(id) => st.(pages := st.pages - {id})
    case AssetUploaded(a) => st.(assets := st.assets + {a})
    case AssetDestroyed(a) => st.(assets := st.assets - {a})
  }

  /**
   * An insert or update by `_id` leaves that document stored under its id,
   * a delete removes exactly that id, and the media host gains or loses
   * exactly the named asset.
   */
  lemma ApplyEffect(st: State, w: Write)
    ensures w.UserInserted? ==> Apply(st, w).users == st.users + [w.user]
    ensures (w.BookInserted? || w.BookUpdated?) ==> w.book.id in Apply(st, w).books && Apply(st, w).books[w.book.id] == w.book
    ensures (w.PageInserted? || w.PageUpdated?) ==> w.page.id in Apply(st, w).pages && Apply(st, w).pages[w.page.id] == w.page
    ensures w.BookDeleted? ==> Apply(st, w).books.Keys == st.books.Keys - {w.id}
    ensures w.PageDeleted? ==> Apply(st, w).pages.Keys == st.pages.Keys - {w.id}
    ensures w.AssetUploaded? ==> Apply(st, w).assets == st.assets + {w.asset}
    ensures w.AssetDestroyed? ==> Apply(st, w).assets == st.assets - {w.asset}
  {
  }

  /** The effect of a sequence of writes, first to last. */
  function Replay(st: State, ws: seq<Write>): (r: State)
    ensures (forall i :: 0 <= i < |ws| ==> !OnUsers(ws[i])) ==> r.users == st.users
    ensures (forall i :: 0 <= i < |ws| ==> !OnBooks(ws[i])) ==> r.books == st.books
    ensures (forall i :: 0 <= i < |ws| ==> !OnPages(ws[i])) ==> r.pages == st.pages
    ensures (forall i :: 0 <= i < |ws| ==> !OnAssets(ws[i])) ==> r.assets == st.assets
    decreases |ws|
  {
    if ws == [] then st else Replay(Apply(st, ws[0]), ws[1..])
  }

  /** Every stored record sits under its own id, and user ids are distinct. */
  ghost predicate WellFormed(st: State) {
    && (forall id :: id in st.books ==> st.books[id].id == id)
    && (forall id :: id in st.pages ==> st.pages[id].id == id)
    && (forall i, j :: 0 <= i < j < |st.users| ==> st.users[i].id != st.users[j].id)
  }

  /** The aggregate's integrity rule: every page id a book lists names a stored page. */
  ghost predicate NoDanglingPages(st: State) {
    forall id, i :: id in st.books && 0 <= i < |st.books[id].pages| ==> st.books[id].pages[i] in st.pages
  }

  /** Some stored book lists `pid`. */
  ghost predicate Listed(st: State, pid: ObjectId) {
    exists id :: id in st.books && pid in st.books[id].pages
  }

  /** With every reference resolved, an id that names no stored page is listed by no book. */
  lemma UnstoredIsUnlisted(st: State, pid: ObjectId)
    requires NoDanglingPages(st) && pid !in st.pages
    ensures !Listed(st, pid)
  {
    forall id | id in st.books
      ensures pid !in st.books[id].pages
    {
      forall i | 0 <= i < |st.books[id].pages|
        ensures st.books[id].pages[i] != pid
      {
      }
    }
  }

  /** Writes performed one after the other compose. */
  lemma {:induction false} ReplayAppend(st: State, a: seq<Write>, b: seq<Write>)
    ensures Replay(st, a + b) == Replay(Replay(st, a), b)
    decreases |a|
  {
    if a != [] {
      assert (a + b)[0] == a[0];
      assert (a + b)[1..] == a[1..] + b;
      ReplayAppend(Apply(st, a[0]), a[1..], b);
      assert Replay(st, a + b) == Replay(Apply(st, a[0]), a[1..] + b);
      assert Replay(st, a) == Replay(Apply(st, a[0]), a[1..]);
    } else {
      assert a + b == b;
    }
  }

  lemma ReplayOne(st: State, a: Write)
    ensures Replay(st, [a]) == Apply(st, a)
  {
    assert [a][1..] == [];
  }

  lemma ReplayTwo(st: State, a: Write, b: Write)
    ensures Replay(st, [a, b]) == Apply(Apply(st, a), b)
  {
    assert [a, b][1..] == [b];
    ReplayOne(Apply(st, a), b);
  }

  lemma ReplayThree(st: State, a: Write, b: Write, c: Write)
    ensures Replay(st, [a, b, c]) == Apply(Apply(Apply(st, a), b), c)
  {
    assert [a, b, c][1..] == [b, c];
    ReplayTwo(Apply(st, a), b, c);
  }

  /** Pulling an id that is not in the list leaves the list as it was. */
  lemma {:induction false} PullAbsent(s: seq<ObjectId>, x: ObjectId)
    requires x !in s
    ensures Pull(s, x) == s
  {
    if s != [] {
      PullAbsent(s[1..], x);
    }
  }

  /** `$pull` distributes over concatenation, so the order of the kept entries is the old order. */
  lemma {:induction false} PullAppend(a: seq<ObjectId>, b: seq<ObjectId>, x: ObjectId)
    ensures Pull(a + b, x) == Pull(a, x) + Pull(b, x)
  {
    if a != [] {
      assert (a + b)[0] == a[0];
      assert (a + b)[1..] == a[1..] + b;
      PullAppend(a[1..], b, x);
      if a[0] == x {
        assert Pull(a + b, x) == Pull(a[1..] + b, x);
      } else {
        assert Pull(a + b, x) == [a[0]] + Pull(a[1..] + b, x);
      }
    } else {
      assert a + b == b;
    }
  }

  /** Pushing a new id and then pulling it gives back the list from before the push. */
  lemma PullUndoesPush(s: seq<ObjectId>, x: ObjectId)
    requires x !in s
    ensures Pull(s + [x], x) == s
  {
    PullAppend(s, [x], x);
    PullAbsent(s, x);
    assert Pull([x], x) == [];
  }
}

/** Inserting rows: id assignment, the constructors of the three models,
    the unique checks SQLite applies on commit, and the model's requirement
    that a post's category and author already be stored rows. */
module Storage {
  import opened Wrappers
  import opened Dates
  import opened Schema

  /** The id SQLite gives a new `INTEGER PRIMARY KEY` row: one more than the
      largest id in the table, or 1 when the table is empty. */
  function NextId(ids: seq<int>): (r: int)
    ensures forall i :: 0 <= i < |ids| ==> ids[i] < r
    ensures |ids| == 0 ==> r == 1
    ensures |ids| > 0 ==> r - 1 in ids
  {
    if |ids| == 0 then 1
    else
      var rest := NextId(ids[1..]);
      if |ids| == 1 || ids[0] >= rest then ids[0] + 1 else rest
  }

  /** Rows inserted into a freshly created table are numbered 1, 2, 3, ... */
  lemma NextIdConsecutive(ids: seq<int>)
    ensures (forall k :: 0 <= k < |ids| ==> ids[k] == k + 1) ==> NextId(ids) == |ids| + 1
  {
    if |ids| > 0 && forall k :: 0 <= k < |ids| ==> ids[k] == k + 1 {
      assert ids[|ids| - 1] < NextId(ids);
    }
  }

  /** `Category(name)` added and committed: a new row with a fresh id is
      appended to the categories table; nothing else changes. Category names
      carry no unique constraint, so this never fails. */
  function AddCategory(s: Store, name: string): (r: (Store, Category))
    ensures r.1.name == name
    ensures forall c :: c in s.categories ==> c.id != r.1.id
    ensures r.0 == s.(categories := s.categories + [r.1])
    ensures (forall k :: 0 <= k < |s.categories| ==> s.categories[k].id == k + 1) ==>
      r.1.id == |s.categories| + 1
  {
    var ids := CategoryIds(s.categories);
    NextIdConsecutive(ids);
    var c := Category(NextId(ids), name);
    (s.(categories := s.categories + [c]), c)
  }

  predicate UsernameTaken(users: seq<User>, username: string) {
    exists u :: u in users && u.username == username
  }

  predicate EmailTaken(users: seq<User>, email: string) {
    exists u :: u in users && u.email == email
  }

  /** `User(username, email)` added and committed. The unique constraints on
      `username` and `email` make the commit fail when either is already
      present; otherwise the row is appended with a fresh id. */
  function AddUser(s: Store, username: string, email: string): (r: Result<(Store, User), Error>)
    ensures r.Failure? <==> exists u :: u in s.users && (u.username == username || u.email == email)
    ensures r == Failure(DuplicateUsername(username)) <==> exists u :: u in s.users && u.username == username
    ensures r.Success? ==> r.value.1.username == username && r.value.1.email == email
    ensures r.Success? ==> forall u :: u in s.users ==> u.id != r.value.1.id
    ensures r.Success? ==> r.value.0 == s.(users := s.users + [r.value.1])
    ensures r.Success? && (forall k :: 0 <= k < |s.users| ==> s.users[k].id == k + 1) ==>
      r.value.1.id == |s.users| + 1
  {
    if UsernameTaken(s.users, username) then Failure(DuplicateUsername(username))
    else if EmailTaken(s.users, email) then Failure(DuplicateEmail(email))
    else
      var ids := UserIds(s.users);
      NextIdConsecutive(ids);
      var u := User(NextId(ids), username, email);
      Success((s.(users := s.users + [u]), u))
  }

  /** A `Post` object before it is flushed: it holds the related category and
      author objects rather than their ids. */
  datatype PendingPost = PendingPost(title: string, body: string, pubDate: CalendarDate,
                                     category: Category, author: User)

  /** `Post(title, body, category, author, pub_date=None)`; `now` stands for
      `datetime.utcnow()`, read only when no publication date is given. */
  function NewPost(title: string, body: string, category: Category, author: User,
                   pubDate: Option<CalendarDate>, now: CalendarDate): (p: PendingPost)
    ensures p.title == title && p.body == body
    ensures p.category == category && p.author == author
    ensures pubDate.None? ==> p.pubDate == now
    ensures pubDate.Some? ==> p.pubDate == pubDate.value
  {
    var date := if pubDate.None? then now else pubDate.value;
    PendingPost(title, body, date, category, author)
  }

  /** Adds and commits a pending post. Its category and author must be rows of
      the store; the new row records their ids as `category_id` and
      `author_id` and gets a fresh id of its own. */
  function AddPost(s: Store, pending: PendingPost): (r: Result<(Store, Post), Error>)
    ensures r.Success? <==> pending.category in s.categories && pending.author in s.users
    ensures pending.category !in s.categories ==> r == Failure(UnknownCategory(pending.category.id))
    ensures r.Success? ==> forall q :: q in s.posts ==> q.id != r.value.1.id
    ensures r.Success? ==> r.value.0 == s.(posts := s.posts + [r.value.1])
    ensures r.Success? && (forall k :: 0 <= k < |s.posts| ==> s.posts[k].id == k + 1) ==>
      r.value.1.id == |s.posts| + 1
    ensures r.Success? ==>
      var p := r.value.1;
      && p.title == pending.title && p.body == pending.body && p.pubDate == pending.pubDate
      && p.categoryId == pending.category.id && p.authorId == pending.author.id
  {
    if pending.category !in s.categories then Failure(UnknownCategory(pending.category.id))
    else if pending.author !in s.users then Failure(UnknownAuthor(pending.author.id))
    else
      var ids := PostIds(s.posts);
      NextIdConsecutive(ids);
      var p := Post(NextId(ids), pending.title, pending.body, pending.pubDate,
                    pending.category.id, pending.author.id);
      Success((s.(posts := s.posts + [p]), p))
  }

  // ---- Every successful insert keeps the store valid ----

  lemma AddCategoryPreservesValid(s: Store, name: string)
    requires Valid(s)
    ensures Valid(AddCategory(s, name).0)
  {
    var (s', c) := AddCategory(s, name);
    assert forall q :: q in s.categories ==> q in s'.categories;
  }

  /** In particular the unique constraints on username and email survive. */
  lemma AddUserPreservesValid(s: Store, username: string, email: string)
    requires Valid(s)
    requires AddUser(s, username, email).Success?
    ensures Valid(AddUser(s, username, email).value.0)
  {
    var (s', u) := AddUser(s, username, email).value;
    assert forall q :: q in s.users ==> q in s'.users;
    assert forall k :: 0 <= k < |s.users| ==> s.users[k] in s.users;
  }

  lemma AddPostPreservesValid(s: Store, pending: PendingPost)
    requires Valid(s)
    requires AddPost(s, pending).Success?
    ensures Valid(AddPost(s, pending).value.0)
  {
    var (s', p) := AddPost(s, pending).value;
    assert forall k :: 0 <= k < |s.posts| ==> s.posts[k] in s.posts;
  }
}

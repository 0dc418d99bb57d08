/** The three tables of the blog database, held as an in-memory value, with
    the constraints the schema declares and the two one-to-many
    relationships written out as foreign-key filters. */
module Schema {
  import opened Wrappers
  import opened Dates

  datatype User = User(id: int, username: string, email: string)

  datatype Category = Category(id: int, name: string)

  datatype Post = Post(id: int, title: string, body: string, pubDate: CalendarDate,
                       categoryId: int, authorId: int)

  /** Rows of each table in insertion (rowid) order. */
  datatype Store = Store(categories: seq<Category>, users: seq<User>, posts: seq<Post>)

  /** What `drop_all` followed by `create_all` leaves behind. */
  const EmptyStore := Store([], [], [])

  /** Why an operation aborts: a unique or foreign-key constraint refused an
      insert, or serialisation met a post whose related row is missing. */
  datatype Error =
    | DuplicateUsername(username: string)
    | DuplicateEmail(email: string)
    | UnknownCategory(categoryId: int)
    | UnknownAuthor(authorId: int)
    | MissingCategory(postId: int)
    | MissingAuthor(postId: int)

  // ---- Lookup by primary key ----

  function FindUser(users: seq<User>, id: int): (r: Option<User>)
    ensures r.None? <==> forall u :: u in users ==> u.id != id
    ensures r.Some? ==> r.value in users && r.value.id == id
  {
    if |users| == 0 then None
    else if users[0].id == id then Some(users[0])
    else FindUser(users[1..], id)
  }

  function FindCategory(categories: seq<Category>, id: int): (r: Option<Category>)
    ensures r.None? <==> forall c :: c in categories ==> c.id != id
    ensures r.Some? ==> r.value in categories && r.value.id == id
  {
    if |categories| == 0 then None
    else if categories[0].id == id then Some(categories[0])
    else FindCategory(categories[1..], id)
  }

  function FindPost(posts: seq<Post>, id: int): (r: Option<Post>)
    ensures r.None? <==> forall p :: p in posts ==> p.id != id
    ensures r.Some? ==> r.value in posts && r.value.id == id
  {
    if |posts| == 0 then None
    else if posts[0].id == id then Some(posts[0])
    else FindPost(posts[1..], id)
  }

  // ---- Schema constraints ----

  // ---- Id columns ----

  function UserIds(users: seq<User>): (ids: seq<int>)
    ensures |ids| == |users| && forall k :: 0 <= k < |users| ==> ids[k] == users[k].id
  {
    seq(|users|, k requires 0 <= k < |users| => users[k].id)
  }

  function CategoryIds(categories: seq<Category>): (ids: seq<int>)
    ensures |ids| == |categories| && forall k :: 0 <= k < |categories| ==> ids[k] == categories[k].id
  {
    seq(|categories|, k requires 0 <= k < |categories| => categories[k].id)
  }

  function PostIds(posts: seq<Post>): (ids: seq<int>)
    ensures |ids| == |posts| && forall k :: 0 <= k < |posts| ==> ids[k] == posts[k].id
  {
    seq(|posts|, k requires 0 <= k < |posts| => posts[k].id)
  }

  /** `primary_key=True` on each table's `id`. */
  predicate UniqueUserIds(users: seq<User>) {
    Distinct(UserIds(users))
  }

  predicate UniqueCategoryIds(categories: seq<Category>) {
    Distinct(CategoryIds(categories))
  }

  predicate UniquePostIds(posts: seq<Post>) {
    Distinct(PostIds(posts))
  }

  /** `unique=True` on `User.username` and on `User.email`. */
  predicate UniqueUsernames(users: seq<User>) {
    forall i, j :: 0 <= i < j < |users| ==> users[i].username != users[j].username
  }

  predicate UniqueEmails(users: seq<User>) {
    forall i, j :: 0 <= i < j < |users| ==> users[i].email != users[j].email
  }

  /** Every post's foreign keys name an existing category and user. */
  predicate ReferencesResolve(s: Store) {
    forall p :: p in s.posts ==>
      (exists c :: c in s.categories && c.id == p.categoryId) &&
      (exists u :: u in s.users && u.id == p.authorId)
  }

  /** The invariant every store built by the inserts below satisfies. */
  predicate Valid(s: Store) {
    && UniqueCategoryIds(s.categories)
    && UniqueUserIds(s.users)
    && UniquePostIds(s.posts)
    && UniqueUsernames(s.users)
    && UniqueEmails(s.users)
    && ReferencesResolve(s)
  }

  /** With unique keys, lookup returns THE row carrying the key. */
  lemma {:induction false} FindUserUnique(users: seq<User>, u: User)
    requires UniqueUserIds(users) && u in users
    ensures FindUser(users, u.id) == Some(u)
  {
    if users[0] != u {
      assert u in users[1..];
      FindUserUnique(users[1..], u);
    }
  }

  lemma {:induction false} FindCategoryUnique(categories: seq<Category>, c: Category)
    requires UniqueCategoryIds(categories) && c in categories
    ensures FindCategory(categories, c.id) == Some(c)
  {
    if categories[0] != c {
      assert c in categories[1..];
      FindCategoryUnique(categories[1..], c);
    }
  }

  lemma {:induction false} FindPostUnique(posts: seq<Post>, p: Post)
    requires UniquePostIds(posts) && p in posts
    ensures FindPost(posts, p.id) == Some(p)
  {
    if posts[0] != p {
      assert p in posts[1..];
      FindPostUnique(posts[1..], p);
    }
  }

  // ---- The backref relationships ----

  /** The two foreign-key columns of the posts table. */
  datatype ForeignKey = CategoryKey | AuthorKey

  function KeyValue(p: Post, fk: ForeignKey): int {
    match fk
    case CategoryKey => p.categoryId
    case AuthorKey => p.authorId
  }

  /** The posts whose `fk` column holds `id`, in store order: the rows a
      `lazy='dynamic'` backref query returns. */
  function PostsReferencing(posts: seq<Post>, fk: ForeignKey, id: int): (r: seq<Post>)
    ensures forall p :: p in r <==> p in posts && KeyValue(p, fk) == id
    ensures |r| <= |posts|
  {
    if |posts| == 0 then []
    else (if KeyValue(posts[0], fk) == id then [posts[0]] else []) + PostsReferencing(posts[1..], fk, id)
  }

  /** `user.posts`. */
  function UserPosts(s: Store, u: User): (r: seq<Post>)
    ensures forall p :: p in r <==> p in s.posts && p.authorId == u.id
  {
    PostsReferencing(s.posts, AuthorKey, u.id)
  }

  /** `category.posts`. */
  function CategoryPosts(s: Store, c: Category): (r: seq<Post>)
    ensures forall p :: p in r <==> p in s.posts && p.categoryId == c.id
  {
    PostsReferencing(s.posts, CategoryKey, c.id)
  }

  /** Nothing missing and nothing extra: a post occurs in the relationship
      exactly as often as in the table when its key matches, and otherwise never. */
  lemma {:induction false} PostsReferencingExact(posts: seq<Post>, fk: ForeignKey, id: int, p: Post)
    ensures multiset(PostsReferencing(posts, fk, id))[p]
         == if KeyValue(p, fk) == id then multiset(posts)[p] else 0
  {
    if |posts| > 0 {
      PostsReferencingExact(posts[1..], fk, id, p);
      assert posts == [posts[0]] + posts[1..];
    }
  }

  /** The relationship keeps store order: it distributes over concatenation. */
  lemma {:induction false} PostsReferencingAppend(a: seq<Post>, b: seq<Post>, fk: ForeignKey, id: int)
    ensures PostsReferencing(a + b, fk, id) == PostsReferencing(a, fk, id) + PostsReferencing(b, fk, id)
  {
    if |a| > 0 {
      assert (a + b)[1..] == a[1..] + b;
      PostsReferencingAppend(a[1..], b, fk, id);
    } else {
      assert a + b == b;
    }
  }

  // ---- Every post belongs to exactly one category and one author ----

  /** The relationship lists of the parents with ids `ids`, one after another. */
  function PostsOfParents(posts: seq<Post>, fk: ForeignKey, ids: seq<int>): seq<Post> {
    if |ids| == 0 then []
    else PostsReferencing(posts, fk, ids[0]) + PostsOfParents(posts, fk, ids[1..])
  }

  /** The posts whose `fk` column holds one of `ids`, in store order. */
  function PostsWithKeyIn(posts: seq<Post>, fk: ForeignKey, ids: seq<int>): seq<Post> {
    if |posts| == 0 then []
    else (if KeyValue(posts[0], fk) in ids then [posts[0]] else []) + PostsWithKeyIn(posts[1..], fk, ids)
  }

  lemma {:induction false} AddParentToFilter(posts: seq<Post>, fk: ForeignKey, id: int, ids: seq<int>)
    requires id !in ids
    ensures multiset(PostsReferencing(posts, fk, id)) + multiset(PostsWithKeyIn(posts, fk, ids))
         == multiset(PostsWithKeyIn(posts, fk, [id] + ids))
  {
    if |posts| > 0 {
      var head, rest := posts[0], posts[1..];
      AddParentToFilter(rest, fk, id, ids);
      var key := KeyValue(head, fk);
      assert key in [id] + ids <==> key == id || key in ids;
      var mine := if key == id then [head] else [];
      var others := if key in ids then [head] else [];
      var both := if key in [id] + ids then [head] else [];
      assert multiset(mine) + multiset(others) == multiset(both);
      assert PostsReferencing(posts, fk, id) == mine + PostsReferencing(rest, fk, id);
      assert PostsWithKeyIn(posts, fk, ids) == others + PostsWithKeyIn(rest, fk, ids);
      assert PostsWithKeyIn(posts, fk, [id] + ids) == both + PostsWithKeyIn(rest, fk, [id] + ids);
    }
  }

  lemma {:induction false} PostsWithNoKey(posts: seq<Post>, fk: ForeignKey)
    ensures PostsWithKeyIn(posts, fk, []) == []
  {
    if |posts| > 0 {
      PostsWithNoKey(posts[1..], fk);
    }
  }

  lemma {:induction false} PostsOfParentsIsFilter(posts: seq<Post>, fk: ForeignKey, ids: seq<int>)
    requires Distinct(ids)
    ensures multiset(PostsOfParents(posts, fk, ids)) == multiset(PostsWithKeyIn(posts, fk, ids))
  {
    if |ids| > 0 {
      var rest := ids[1..];
      assert Distinct(rest);
      PostsOfParentsIsFilter(posts, fk, rest);
      assert ids[0] !in rest by {
        forall k | 0 <= k < |rest| ensures rest[k] != ids[0] {
          assert rest[k] == ids[k + 1];
        }
      }
      AddParentToFilter(posts, fk, ids[0], rest);
      assert ids == [ids[0]] + rest;
    } else {
      PostsWithNoKey(posts, fk);
    }
  }

  lemma {:induction false} FilterKeepsAll(posts: seq<Post>, fk: ForeignKey, ids: seq<int>)
    requires forall p :: p in posts ==> KeyValue(p, fk) in ids
    ensures PostsWithKeyIn(posts, fk, ids) == posts
  {
    if |posts| > 0 {
      assert posts[0] in posts;
      FilterKeepsAll(posts[1..], fk, ids);
      assert posts == [posts[0]] + posts[1..];
    }
  }

  /** The category post lists, one per category in table order. */
  function AllCategoryPosts(s: Store): seq<Post> {
    PostsOfParents(s.posts, CategoryKey, CategoryIds(s.categories))
  }

  /** The user post lists, one per user in table order. */
  function AllUserPosts(s: Store): seq<Post> {
    PostsOfParents(s.posts, AuthorKey, UserIds(s.users))
  }

  /** Summed over all categories, the category post lists hold every post
      exactly as often as the posts table does: each post in exactly one. */
  lemma CategoriesPartitionPosts(s: Store)
    requires Valid(s)
    ensures multiset(AllCategoryPosts(s)) == multiset(s.posts)
  {
    var ids := CategoryIds(s.categories);
    assert Distinct(ids);
    PostsOfParentsIsFilter(s.posts, CategoryKey, ids);
    forall p | p in s.posts ensures KeyValue(p, CategoryKey) in ids {
      var c :| c in s.categories && c.id == p.categoryId;
      var k :| 0 <= k < |s.categories| && s.categories[k] == c;
      assert ids[k] == c.id;
    }
    FilterKeepsAll(s.posts, CategoryKey, ids);
  }

  /** Likewise every post is in exactly one user's list. */
  lemma UsersPartitionPosts(s: Store)
    requires Valid(s)
    ensures multiset(AllUserPosts(s)) == multiset(s.posts)
  {
    var ids := UserIds(s.users);
    assert Distinct(ids);
    PostsOfParentsIsFilter(s.posts, AuthorKey, ids);
    forall p | p in s.posts ensures KeyValue(p, AuthorKey) in ids {
      var u :| u in s.users && u.id == p.authorId;
      var k :| 0 <= k < |s.users| && s.users[k] == u;
      assert ids[k] == u.id;
    }
    FilterKeepsAll(s.posts, AuthorKey, ids);
  }
}

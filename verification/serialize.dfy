/** The `json()` methods of the three models. A user or category embeds the
    full serialisation of each of its posts; a post names its category and
    author instead of embedding them. */
module Serialize {
  import opened Wrappers
  import opened Dates
  import opened Json
  import opened Schema
  import opened Storage

  const PostKeys: seq<string> := ["id", "title", "body", "pub_date", "category", "author"]
  const UserKeys: seq<string> := ["id", "username", "posts"]
  const CategoryKeys: seq<string> := ["id", "name", "posts"]

  lemma PostKeysDistinct()
    ensures Distinct(PostKeys)
  {
  }

  /** The six members of a post's serialisation, given the names it refers to. */
  function PostObject(p: Post, categoryName: string, authorName: string): (v: Value)
    ensures Keys(v) == PostKeys
    ensures Get(v, "id") == Some(Num(p.id))
    ensures Get(v, "title") == Some(Str(p.title))
    ensures Get(v, "body") == Some(Str(p.body))
    ensures Get(v, "pub_date") == Some(Str(Format(p.pubDate)))
    ensures Get(v, "category") == Some(Str(categoryName))
    ensures Get(v, "author") == Some(Str(authorName))
  {
    var values := [Num(p.id), Str(p.title), Str(p.body), Str(Format(p.pubDate)),
                   Str(categoryName), Str(authorName)];
    PostKeysDistinct();
    ZipKeys(PostKeys, values);
    ZipMemberAt(PostKeys, values, 0);
    ZipMemberAt(PostKeys, values, 1);
    ZipMemberAt(PostKeys, values, 2);
    ZipMemberAt(PostKeys, values, 3);
    ZipMemberAt(PostKeys, values, 4);
    ZipMemberAt(PostKeys, values, 5);
    Obj(Zip(PostKeys, values))
  }

  /** `Post.json()`. Reading `self.category.name` or `self.author.username`
      raises when the referenced row does not exist; that is the failure. */
  function PostJson(s: Store, p: Post): (r: Result<Value, Error>)
    ensures r.Success? <==>
      (exists c :: c in s.categories && c.id == p.categoryId) &&
      (exists u :: u in s.users && u.id == p.authorId)
    ensures (forall c :: c in s.categories ==> c.id != p.categoryId) ==> r == Failure(MissingCategory(p.id))
    ensures r.Success? ==> Keys(r.value) == PostKeys
    ensures r.Success? ==>
      && Get(r.value, "id") == Some(Num(p.id))
      && Get(r.value, "title") == Some(Str(p.title))
      && Get(r.value, "body") == Some(Str(p.body))
      && Get(r.value, "pub_date") == Some(Str(Format(p.pubDate)))
    ensures r.Success? ==>
      (exists c :: c in s.categories && c.id == p.categoryId && Get(r.value, "category") == Some(Str(c.name)))
    ensures r.Success? ==>
      (exists u :: u in s.users && u.id == p.authorId && Get(r.value, "author") == Some(Str(u.username)))
  {
    var category :- match FindCategory(s.categories, p.categoryId)
      case None => Failure(MissingCategory(p.id))
      case Some(c) => Success(c);
    var author :- match FindUser(s.users, p.authorId)
      case None => Failure(MissingAuthor(p.id))
      case Some(u) => Success(u);
    Success(PostObject(p, category.name, author.username))
  }

  /** Serialises posts in order; the first failure aborts. */
  function PostsJson(s: Store, posts: seq<Post>): (r: Result<seq<Value>, Error>)
    ensures r.Success? <==> forall i :: 0 <= i < |posts| ==> PostJson(s, posts[i]).Success?
    ensures r.Success? ==> |r.value| == |posts|
    ensures r.Success? ==> forall i :: 0 <= i < |posts| ==> r.value[i] == PostJson(s, posts[i]).value
  {
    MapAll(posts, p => PostJson(s, p))
  }

  /** The three members of a user's serialisation, given its serialised posts. */
  function UserObject(u: User, items: seq<Value>): (v: Value)
    ensures Keys(v) == UserKeys
    ensures Get(v, "id") == Some(Num(u.id))
    ensures Get(v, "username") == Some(Str(u.username))
    ensures Get(v, "posts") == Some(Arr(items)) && Items(v, "posts") == items
  {
    var values := [Num(u.id), Str(u.username), Arr(items)];
    assert Distinct(UserKeys);
    ZipKeys(UserKeys, values);
    ZipMemberAt(UserKeys, values, 0);
    ZipMemberAt(UserKeys, values, 1);
    ZipMemberAt(UserKeys, values, 2);
    Obj(Zip(UserKeys, values))
  }

  /** `User.json()`: id, username and the user's posts, each fully serialised. */
  function UserJson(s: Store, u: User): (r: Result<Value, Error>)
    ensures r.Success? <==> forall p :: p in UserPosts(s, u) ==> PostJson(s, p).Success?
    ensures r.Success? ==> Keys(r.value) == UserKeys
    ensures r.Success? ==>
      && Get(r.value, "id") == Some(Num(u.id))
      && Get(r.value, "username") == Some(Str(u.username))
      && Get(r.value, "posts").Some? && Get(r.value, "posts").value.Arr?
    ensures r.Success? ==> PostsJson(s, UserPosts(s, u)) == Success(Items(r.value, "posts"))
  {
    var items :- PostsJson(s, UserPosts(s, u));
    Success(UserObject(u, items))
  }

  /** The three members of a category's serialisation, given its serialised posts. */
  function CategoryObject(c: Category, items: seq<Value>): (v: Value)
    ensures Keys(v) == CategoryKeys
    ensures Get(v, "id") == Some(Num(c.id))
    ensures Get(v, "name") == Some(Str(c.name))
    ensures Get(v, "posts") == Some(Arr(items)) && Items(v, "posts") == items
  {
    var values := [Num(c.id), Str(c.name), Arr(items)];
    assert Distinct(CategoryKeys);
    ZipKeys(CategoryKeys, values);
    ZipMemberAt(CategoryKeys, values, 0);
    ZipMemberAt(CategoryKeys, values, 1);
    ZipMemberAt(CategoryKeys, values, 2);
    Obj(Zip(CategoryKeys, values))
  }

  /** `Category.json()`: id, name and the category's posts, each fully serialised. */
  function CategoryJson(s: Store, c: Category): (r: Result<Value, Error>)
    ensures r.Success? <==> forall p :: p in CategoryPosts(s, c) ==> PostJson(s, p).Success?
    ensures r.Success? ==> Keys(r.value) == CategoryKeys
    ensures r.Success? ==>
      && Get(r.value, "id") == Some(Num(c.id))
      && Get(r.value, "name") == Some(Str(c.name))
      && Get(r.value, "posts").Some? && Get(r.value, "posts").value.Arr?
    ensures r.Success? ==> PostsJson(s, CategoryPosts(s, c)) == Success(Items(r.value, "posts"))
  {
    var items :- PostsJson(s, CategoryPosts(s, c));
    Success(CategoryObject(c, items))
  }

  // ---- Properties of the serialisations over a valid store ----

  /** A post's `category` is the name of the category its `category_id`
      refers to, and its `author` the username of the user its `author_id`
      refers to. */
  lemma PostJsonNamesReferences(s: Store, p: Post)
    requires Valid(s) && p in s.posts
    ensures PostJson(s, p).Success?
    ensures forall c :: c in s.categories && c.id == p.categoryId ==>
      Get(PostJson(s, p).value, "category") == Some(Str(c.name))
    ensures forall u :: u in s.users && u.id == p.authorId ==>
      Get(PostJson(s, p).value, "author") == Some(Str(u.username))
  {
    var v := PostJson(s, p).value;
    forall c | c in s.categories && c.id == p.categoryId
      ensures Get(v, "category") == Some(Str(c.name))
    {
      var c' :| c' in s.categories && c'.id == p.categoryId && Get(v, "category") == Some(Str(c'.name));
      FindCategoryUnique(s.categories, c);
      FindCategoryUnique(s.categories, c');
    }
    forall u | u in s.users && u.id == p.authorId
      ensures Get(v, "author") == Some(Str(u.username))
    {
      var u' :| u' in s.users && u'.id == p.authorId && Get(v, "author") == Some(Str(u'.username));
      FindUserUnique(s.users, u);
      FindUserUnique(s.users, u');
    }
  }

  /** A serialised list holds a value exactly when it serialises one of the listed posts. */
  lemma PostsJsonMembers(s: Store, posts: seq<Post>)
    ensures PostsJson(s, posts).Success? ==> forall j :: j in PostsJson(s, posts).value <==>
      exists p :: p in posts && PostJson(s, p) == Success(j)
  {
    MapAllMembers(posts, p => PostJson(s, p));
  }

  /** Every post of a valid store serialises. */
  lemma ValidPostsSerialise(s: Store, posts: seq<Post>)
    requires Valid(s)
    requires forall p :: p in posts ==> p in s.posts
    ensures PostsJson(s, posts).Success?
  {
    forall i | 0 <= i < |posts| ensures PostJson(s, posts[i]).Success? {
      assert posts[i] in posts;
      PostJsonNamesReferences(s, posts[i]);
    }
  }

  /** A user's `posts` holds exactly the serialisations of the posts whose
      `author_id` is the user's id: one per such post, and nothing else. */
  lemma UserJsonPostsExact(s: Store, u: User)
    requires Valid(s)
    ensures UserJson(s, u).Success?
    ensures |Items(UserJson(s, u).value, "posts")| == |UserPosts(s, u)|
    ensures forall j :: j in Items(UserJson(s, u).value, "posts") <==>
      exists p :: p in s.posts && p.authorId == u.id && PostJson(s, p) == Success(j)
  {
    ValidPostsSerialise(s, UserPosts(s, u));
    PostsJsonMembers(s, UserPosts(s, u));
  }

  /** A category's `posts` holds exactly the serialisations of the posts
      whose `category_id` is the category's id. */
  lemma CategoryJsonPostsExact(s: Store, c: Category)
    requires Valid(s)
    ensures CategoryJson(s, c).Success?
    ensures |Items(CategoryJson(s, c).value, "posts")| == |CategoryPosts(s, c)|
    ensures forall j :: j in Items(CategoryJson(s, c).value, "posts") <==>
      exists p :: p in s.posts && p.categoryId == c.id && PostJson(s, p) == Success(j)
  {
    ValidPostsSerialise(s, CategoryPosts(s, c));
    PostsJsonMembers(s, CategoryPosts(s, c));
  }

  /** A post constructed from persisted rows and added to a valid store
      serialises with the given title and body, the given date (or `now`
      when none was given), and the names of the given category and author. */
  lemma NewPostSerialises(s: Store, title: string, body: string, c: Category, u: User,
                          pubDate: Option<CalendarDate>, now: CalendarDate)
    requires Valid(s) && c in s.categories && u in s.users
    ensures AddPost(s, NewPost(title, body, c, u, pubDate, now)).Success?
    ensures
      var (s', p) := AddPost(s, NewPost(title, body, c, u, pubDate, now)).value;
      var date := if pubDate.Some? then pubDate.value else now;
      && PostJson(s', p).Success?
      && Get(PostJson(s', p).value, "title") == Some(Str(title))
      && Get(PostJson(s', p).value, "body") == Some(Str(body))
      && Get(PostJson(s', p).value, "pub_date") == Some(Str(Format(date)))
      && Get(PostJson(s', p).value, "category") == Some(Str(c.name))
      && Get(PostJson(s', p).value, "author") == Some(Str(u.username))
  {
    var pending := NewPost(title, body, c, u, pubDate, now);
    var (s', p) := AddPost(s, pending).value;
    AddPostPreservesValid(s, pending);
    assert p in s'.posts;
    PostJsonNamesReferences(s', p);
  }
}

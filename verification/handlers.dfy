/** The three GET resources: fetch every row of one table, serialise each in
    store order, and wrap the list under the table's key. A failure stands
    for the exception that turns the request into a server error. */
module Handlers {
  import opened Wrappers
  import opened Json
  import opened Schema
  import opened Serialize

  /** `{key: items}`. */
  function Wrap(key: string, items: seq<Value>): (v: Value)
    ensures Keys(v) == [key]
    ensures Get(v, key) == Some(Arr(items)) && Items(v, key) == items
  {
    Obj([(key, Arr(items))])
  }

  /** `UserList.get`. */
  function UserList(s: Store): (r: Result<Value, Error>)
    ensures r.Success? <==> forall i :: 0 <= i < |s.users| ==> UserJson(s, s.users[i]).Success?
    ensures r.Success? ==> Keys(r.value) == ["users"]
    ensures r.Success? ==> |Items(r.value, "users")| == |s.users|
    ensures r.Success? ==> forall i :: 0 <= i < |s.users| ==>
      Items(r.value, "users")[i] == UserJson(s, s.users[i]).value
  {
    var items :- MapAll(s.users, u => UserJson(s, u));
    Success(Wrap("users", items))
  }

  /** `PostList.get`. */
  function PostList(s: Store): (r: Result<Value, Error>)
    ensures r.Success? <==> forall i :: 0 <= i < |s.posts| ==> PostJson(s, s.posts[i]).Success?
    ensures r.Success? ==> Keys(r.value) == ["posts"]
    ensures r.Success? ==> |Items(r.value, "posts")| == |s.posts|
    ensures r.Success? ==> forall i :: 0 <= i < |s.posts| ==>
      Items(r.value, "posts")[i] == PostJson(s, s.posts[i]).value
  {
    var items :- PostsJson(s, s.posts);
    Success(Wrap("posts", items))
  }

  /** `CategoryList.get`. */
  function CategoryList(s: Store): (r: Result<Value, Error>)
    ensures r.Success? <==> forall i :: 0 <= i < |s.categories| ==> CategoryJson(s, s.categories[i]).Success?
    ensures r.Success? ==> Keys(r.value) == ["categories"]
    ensures r.Success? ==> |Items(r.value, "categories")| == |s.categories|
    ensures r.Success? ==> forall i :: 0 <= i < |s.categories| ==>
      Items(r.value, "categories")[i] == CategoryJson(s, s.categories[i]).value
  {
    var items :- MapAll(s.categories, c => CategoryJson(s, c));
    Success(Wrap("categories", items))
  }

  /** On a valid store no handler raises. */
  lemma ValidStoreServes(s: Store)
    requires Valid(s)
    ensures UserList(s).Success? && PostList(s).Success? && CategoryList(s).Success?
  {
    forall i | 0 <= i < |s.users| ensures UserJson(s, s.users[i]).Success? {
      UserJsonPostsExact(s, s.users[i]);
    }
    forall i | 0 <= i < |s.categories| ensures CategoryJson(s, s.categories[i]).Success? {
      CategoryJsonPostsExact(s, s.categories[i]);
    }
    ValidPostsSerialise(s, s.posts);
  }

  /** Each listed user carries the id, and the username, of the one row that id locates. */
  lemma ListedUserLocates(s: Store, i: int)
    requires Valid(s) && 0 <= i < |s.users|
    ensures UserList(s).Success?
    ensures
      var item := Items(UserList(s).value, "users")[i];
      && Get(item, "id") == Some(Num(s.users[i].id))
      && Get(item, "username") == Some(Str(s.users[i].username))
      && FindUser(s.users, s.users[i].id) == Some(s.users[i])
  {
    ValidStoreServes(s);
    FindUserUnique(s.users, s.users[i]);
  }

  /** Each listed post carries the id, and the fields, of the one row that id locates. */
  lemma ListedPostLocates(s: Store, i: int)
    requires Valid(s) && 0 <= i < |s.posts|
    ensures PostList(s).Success?
    ensures
      var item := Items(PostList(s).value, "posts")[i];
      && Get(item, "id") == Some(Num(s.posts[i].id))
      && Get(item, "title") == Some(Str(s.posts[i].title))
      && Get(item, "body") == Some(Str(s.posts[i].body))
      && FindPost(s.posts, s.posts[i].id) == Some(s.posts[i])
  {
    ValidStoreServes(s);
    FindPostUnique(s.posts, s.posts[i]);
  }

  /** Each listed category carries the id, and the name, of the one row that id locates. */
  lemma ListedCategoryLocates(s: Store, i: int)
    requires Valid(s) && 0 <= i < |s.categories|
    ensures CategoryList(s).Success?
    ensures
      var item := Items(CategoryList(s).value, "categories")[i];
      && Get(item, "id") == Some(Num(s.categories[i].id))
      && Get(item, "name") == Some(Str(s.categories[i].name))
      && FindCategory(s.categories, s.categories[i].id) == Some(s.categories[i])
  {
    ValidStoreServes(s);
    FindCategoryUnique(s.categories, s.categories[i]);
  }
}

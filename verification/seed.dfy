/** `populate_database`: recreate the tables and insert the fixed sample
    data. The three publication dates are the three readings of the clock
    the three `Post` constructors make. */
module Seed {
  import opened Wrappers
  import opened Dates
  import opened Json
  import opened Schema
  import opened Storage
  import opened Serialize
  import opened Handlers

  const Python := Category(1, "Python")
  const Mooc := Category(2, "Mooc")
  const Guido := User(1, "guido", "guido@example.com")
  const John := User(2, "john", "john@example.com")

  function FirstPost(now: CalendarDate): Post {
    Post(1, "Hi py", "Python is awesome", now, Python.id, Guido.id)
  }

  function SecondPost(now: CalendarDate): Post {
    Post(2, "Hi py again", "Python is really awesome", now, Python.id, Guido.id)
  }

  function ThirdPost(now: CalendarDate): Post {
    Post(3, "Another one", "Build wonderful api", now, Mooc.id, John.id)
  }

  /** The sample data, written out row by row with the ids SQLite assigns. */
  function SeededStore(now1: CalendarDate, now2: CalendarDate, now3: CalendarDate): Store {
    Store([Python, Mooc], [Guido, John], [FirstPost(now1), SecondPost(now2), ThirdPost(now3)])
  }

  // One lemma per insert of the seed routine, each naming the rows it yields.

  lemma InsertPython()
    ensures AddCategory(EmptyStore, "Python") == (Store([Python], [], []), Python)
  {
    var (s', c) := AddCategory(EmptyStore, "Python");
    assert c == Python;
    assert s'.categories == [Python];
  }

  lemma InsertMooc()
    ensures AddCategory(Store([Python], [], []), "Mooc") == (Store([Python, Mooc], [], []), Mooc)
  {
    var (s', c) := AddCategory(Store([Python], [], []), "Mooc");
    assert c == Mooc;
    assert s'.categories == [Python, Mooc];
  }

  lemma InsertGuido()
    ensures AddUser(Store([Python, Mooc], [], []), "guido", "guido@example.com")
         == Success((Store([Python, Mooc], [Guido], []), Guido))
  {
    var (s', u) := AddUser(Store([Python, Mooc], [], []), "guido", "guido@example.com").value;
    assert u == Guido;
    assert s'.users == [Guido];
  }

  lemma InsertJohn()
    ensures AddUser(Store([Python, Mooc], [Guido], []), "john", "john@example.com")
         == Success((Store([Python, Mooc], [Guido, John], []), John))
  {
    assert Guido.username != "john" && Guido.email != "john@example.com";
    var (s', u) := AddUser(Store([Python, Mooc], [Guido], []), "john", "john@example.com").value;
    assert u == John;
    assert s'.users == [Guido, John];
  }

  lemma InsertFirstPost(now1: CalendarDate)
    ensures AddPost(Store([Python, Mooc], [Guido, John], []),
                    NewPost("Hi py", "Python is awesome", Python, Guido, None, now1))
         == Success((Store([Python, Mooc], [Guido, John], [FirstPost(now1)]), FirstPost(now1)))
  {
    var (s', p) := AddPost(Store([Python, Mooc], [Guido, John], []), NewPost("Hi py", "Python is awesome", Python, Guido, None, now1)).value;
    assert p == FirstPost(now1);
    assert s'.posts == [FirstPost(now1)];
  }

  lemma InsertSecondPost(now1: CalendarDate, now2: CalendarDate)
    ensures AddPost(Store([Python, Mooc], [Guido, John], [FirstPost(now1)]),
                    NewPost("Hi py again", "Python is really awesome", Python, Guido, None, now2))
         == Success((Store([Python, Mooc], [Guido, John], [FirstPost(now1), SecondPost(now2)]), SecondPost(now2)))
  {
    var (s', p) := AddPost(Store([Python, Mooc], [Guido, John], [FirstPost(now1)]), NewPost("Hi py again", "Python is really awesome", Python, Guido, None, now2)).value;
    assert p == SecondPost(now2);
    assert s'.posts == [FirstPost(now1), SecondPost(now2)];
  }

  lemma InsertThirdPost(now1: CalendarDate, now2: CalendarDate, now3: CalendarDate)
    ensures AddPost(Store([Python, Mooc], [Guido, John], [FirstPost(now1), SecondPost(now2)]),
                    NewPost("Another one", "Build wonderful api", Mooc, John, None, now3))
         == Success((SeededStore(now1, now2, now3), ThirdPost(now3)))
  {
    var (s', p) := AddPost(Store([Python, Mooc], [Guido, John], [FirstPost(now1), SecondPost(now2)]), NewPost("Another one", "Build wonderful api", Mooc, John, None, now3)).value;
    assert p == ThirdPost(now3);
    assert s'.posts == [FirstPost(now1), SecondPost(now2), ThirdPost(now3)];
  }

  /** Whatever `s` held is dropped; the inserts then run on empty tables.
      All rows are committed together, so inserting the categories and users
      before building the posts assigns the same ids as the source's order. */
  function Populate(s: Store, now1: CalendarDate, now2: CalendarDate, now3: CalendarDate): (r: Result<Store, Error>)
    ensures r == Success(SeededStore(now1, now2, now3))
  {
    InsertPython(); InsertMooc(); InsertGuido(); InsertJohn();
    InsertFirstPost(now1); InsertSecondPost(now1, now2); InsertThirdPost(now1, now2, now3);
    var (s1, python) := AddCategory(EmptyStore, "Python");
    var (s2, mooc) := AddCategory(s1, "Mooc");
    match AddUser(s2, "guido", "guido@example.com")
    case Failure(e) => Failure(e)
    case Success((s3, guido)) =>
      match AddUser(s3, "john", "john@example.com")
      case Failure(e) => Failure(e)
      case Success((s4, john)) =>
        match AddPost(s4, NewPost("Hi py", "Python is awesome", python, guido, None, now1))
        case Failure(e) => Failure(e)
        case Success((s5, _)) =>
          match AddPost(s5, NewPost("Hi py again", "Python is really awesome", python, guido, None, now2))
          case Failure(e) => Failure(e)
          case Success((s6, _)) =>
            match AddPost(s6, NewPost("Another one", "Build wonderful api", mooc, john, None, now3))
            case Failure(e) => Failure(e)
            case Success((s7, _)) => Success(s7)
  }

  /** Seeding twice leaves exactly what seeding once does: no duplicated or leftover rows. */
  lemma PopulateIdempotent(s: Store, now1: CalendarDate, now2: CalendarDate, now3: CalendarDate)
    ensures Populate(s, now1, now2, now3).Success?
    ensures Populate(Populate(s, now1, now2, now3).value, now1, now2, now3) == Populate(s, now1, now2, now3)
    ensures
      var seeded := Populate(s, now1, now2, now3).value;
      |seeded.categories| == 2 && |seeded.users| == 2 && |seeded.posts| == 3
  {
  }

  /** The seeded store satisfies every schema constraint. */
  lemma SeededStoreValid(now1: CalendarDate, now2: CalendarDate, now3: CalendarDate)
    ensures Valid(SeededStore(now1, now2, now3))
  {
    var s := SeededStore(now1, now2, now3);
    assert s.categories[0] in s.categories && s.categories[1] in s.categories;
    assert s.users[0] in s.users && s.users[1] in s.users;
  }

  /** `GET /categories` on the seeded store (what `Populate` yields) lists "Python" then "Mooc". */
  lemma SeededCategoryList(now1: CalendarDate, now2: CalendarDate, now3: CalendarDate)
    ensures
      var seeded := SeededStore(now1, now2, now3);
      && CategoryList(seeded).Success?
      && var items := Items(CategoryList(seeded).value, "categories");
      && |items| == 2
      && Get(items[0], "name") == Some(Str("Python"))
      && Get(items[1], "name") == Some(Str("Mooc"))
  {
    var seeded := SeededStore(now1, now2, now3);
    SeededStoreValid(now1, now2, now3);
    ListedCategoryLocates(seeded, 0);
    ListedCategoryLocates(seeded, 1);
  }

  /** `GET /users` on the seeded store lists "guido" then "john". */
  lemma SeededUserList(now1: CalendarDate, now2: CalendarDate, now3: CalendarDate)
    ensures
      var seeded := SeededStore(now1, now2, now3);
      && UserList(seeded).Success?
      && var items := Items(UserList(seeded).value, "users");
      && |items| == 2
      && Get(items[0], "username") == Some(Str("guido"))
      && Get(items[1], "username") == Some(Str("john"))
  {
    var seeded := SeededStore(now1, now2, now3);
    SeededStoreValid(now1, now2, now3);
    ListedUserLocates(seeded, 0);
    ListedUserLocates(seeded, 1);
  }

  /** Title, body, category name, author name and clock reading of a seeded post. */
  predicate ShowsPost(item: Value, title: string, body: string, category: string, author: string,
                      now: CalendarDate) {
    && Get(item, "title") == Some(Str(title))
    && Get(item, "body") == Some(Str(body))
    && Get(item, "category") == Some(Str(category))
    && Get(item, "author") == Some(Str(author))
    && Get(item, "pub_date") == Some(Str(Format(now)))
  }

  /** How the seeded post at position `i` appears in `GET /posts`. */
  lemma SeededPostListed(now1: CalendarDate, now2: CalendarDate, now3: CalendarDate, i: nat,
                         category: Category, author: User)
    requires i < 3
    requires category in [Python, Mooc] && category.id == SeededStore(now1, now2, now3).posts[i].categoryId
    requires author in [Guido, John] && author.id == SeededStore(now1, now2, now3).posts[i].authorId
    ensures PostList(SeededStore(now1, now2, now3)).Success?
    ensures |Items(PostList(SeededStore(now1, now2, now3)).value, "posts")| == 3
    ensures
      var p := SeededStore(now1, now2, now3).posts[i];
      ShowsPost(Items(PostList(SeededStore(now1, now2, now3)).value, "posts")[i],
                p.title, p.body, category.name, author.username, p.pubDate)
  {
    var seeded := SeededStore(now1, now2, now3);
    SeededStoreValid(now1, now2, now3);
    ValidStoreServes(seeded);
    assert seeded.posts[i] in seeded.posts;
    PostJsonNamesReferences(seeded, seeded.posts[i]);
  }

  /** `GET /posts` on the seeded store lists the three sample posts with their
      category names, author usernames and the clock readings taken when
      each was constructed. */
  lemma SeededPostList(now1: CalendarDate, now2: CalendarDate, now3: CalendarDate)
    ensures
      var seeded := SeededStore(now1, now2, now3);
      && PostList(seeded).Success?
      && var items := Items(PostList(seeded).value, "posts");
      && |items| == 3
      && ShowsPost(items[0], "Hi py", "Python is awesome", "Python", "guido", now1)
      && ShowsPost(items[1], "Hi py again", "Python is really awesome", "Python", "guido", now2)
      && ShowsPost(items[2], "Another one", "Build wonderful api", "Mooc", "john", now3)
  {
    SeededPostListed(now1, now2, now3, 0, Python, Guido);
    SeededPostListed(now1, now2, now3, 1, Python, Guido);
    SeededPostListed(now1, now2, now3, 2, Mooc, John);
  }
}

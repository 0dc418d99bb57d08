# Blog API data model in Dafny

A model of a small Flask/SQLAlchemy blog service. It has three tables: users,
categories and posts. A post belongs to one category and one author. There
are three read-only list resources (`/users`, `/posts`, `/categories`) and a
seed routine, `populate_database`.

The database is an immutable `Store` value with one sequence of rows per
table, kept in rowid order. Every operation is a pure function:

- `wrappers.dfy` (`Wrappers`): `Option`, `Result` and `MapAll`. `MapAll` is
  a list comprehension whose first raised exception aborts the whole list.
- `json.dfy` (`Json`): JSON values. Object members keep the order they were
  written in, so each serialiser's exact keys can be stated.
- `dates.dfy` (`Dates`): calendar dates with the validity a Python
  `datetime` guarantees, the `"%d/%m/%y"` rendering, and its parser.
- `schema.dfy` (`Schema`): the row types and the store. It also holds
  primary-key lookups and the declared unique and foreign-key constraints
  (`Valid`). The two backref relationships are written as foreign-key
  filters. The file also proves that the categories, and the users, each partition the posts.
- `storage.dfy` (`Storage`): the constructors of the models and the inserts.
  Each insert assigns ids the way SQLite does: one more than the largest id,
  or 1 in an empty table. Inserts apply the unique checks SQLite makes on
  commit, and the model's own requirement that a post's category and author
  already be stored rows. Every successful insert preserves `Valid`.
- `serialize.dfy` (`Serialize`): `User.json`, `Post.json` and
  `Category.json`.
- `handlers.dfy` (`Handlers`): `UserList.get`, `PostList.get` and
  `CategoryList.get`.
- `seed.dfy` (`Seed`): `populate_database`, which maps any store to the
  fixed sample store.

A step that raises in the source (a missing related row during
serialisation, a refused insert) returns `Failure`. A failing handler stands
for the request ending in a server error.

Three facts about the code shape the model:

- `Post.__init__` (app.py:46-53) calls `datetime.utcnow()` once per post
  built without a `pub_date`, and `populate_database` builds three such
  posts. So the seed takes three clock readings, `now1`, `now2` and `now3`.
- SQLite does not enforce foreign keys by default; only the unique
  constraints on `username` and `email` (app.py:14-15) are checked on
  commit. The code still cannot create a dangling reference, because `Post`
  is built from category and user objects. So `Valid` includes referential
  integrity, and serialising a post whose row is missing returns `Failure`.
  In the source, that case raises `AttributeError`.
- The code defines no error handling, so a failing handler stands for a
  server error and the model reports only `Failure`.

## Model

| member | source | states |
|---|---|---|
| Wrappers.MapAll | app.py:87-102 | The list comprehension succeeds exactly when every element's step succeeds. Its result then has one value per element, in order. A failure is the failure of some element. |
| Wrappers.MapAllMembers | app.py:87-102 | After a successful comprehension, a value is in the list exactly when some element's step produced it. |
| Dates.TwoDigits | app.py:63 | `%d`, `%m` and `%y` render a number below 100 as two digit characters whose decimal value is that number, zero padding included. |
| Dates.Format | app.py:63 | `pub_date` renders as 8 characters, with '/' at indices 2 and 5 and digits elsewhere. The digit pairs encode the day, the month and the year modulo 100. |
| Dates.ParseFormat | app.py:63 | Reading a rendered date back gives its day, month and year modulo 100. |
| Dates.FormatParse | app.py:63 | Any string that reads back as a date's day, month and two-digit year is that date's rendering. |
| Dates.FormatInjective | app.py:63 | Two dates render the same exactly when they agree on day, month and year modulo 100. |
| Schema.FindUser | app.py:42-44 | Resolving `author_id` gives a user row carrying that id, or none exactly when no row carries it. |
| Schema.FindCategory | app.py:38-40 | Resolving `category_id` gives a category row carrying that id, or none exactly when no row carries it. |
| Schema.FindPost | app.py:33 | A post-id lookup gives a post row carrying that id, or none exactly when no row carries it. |
| Schema.FindUserUnique | app.py:13 | Because `User.id` is a primary key, looking up a user's id gives back that same user. |
| Schema.FindCategoryUnique | app.py:70 | Because `Category.id` is a primary key, looking up a category's id gives back that same category. |
| Schema.FindPostUnique | app.py:33 | Because `Post.id` is a primary key, looking up a post's id gives back that same post. |
| Schema.PostsReferencing | app.py:38-44 | A backref relationship contains a post exactly when the post is in the table and its foreign-key column (`category_id` or `author_id`) holds the parent's id. |
| Schema.UserPosts | app.py:42-44 | `user.posts` contains a post exactly when the post is in the table and its `author_id` is the user's id. |
| Schema.CategoryPosts | app.py:38-40 | `category.posts` contains a post exactly when the post is in the table and its `category_id` is the category's id. |
| Schema.PostsReferencingExact | app.py:38-44 | A post with a matching key occurs in the relationship as many times as in the table. Any other post never occurs. |
| Schema.PostsReferencingAppend | app.py:38-44 | The relationship keeps table order: the filter distributes over concatenation. |
| Schema.CategoriesPartitionPosts | app.py:38-40 | In a valid store, the categories' post lists joined together are a permutation of the posts table. So each post belongs to exactly one category. |
| Schema.UsersPartitionPosts | app.py:42-44 | In a valid store, the users' post lists joined together are a permutation of the posts table. So each post has exactly one author. |
| Storage.NextId | app.py:13 | A new row's id is larger than every existing id. It is 1 in an empty table and otherwise one more than an existing id, i.e. the maximum plus one. |
| Storage.NextIdConsecutive | app.py:13 | In a table whose rows are numbered 1..n, the next row gets n+1. |
| Storage.AddCategory | app.py:69-74 | Adding a category appends one row with the given name and an id no existing category has. The users and posts tables are unchanged. |
| Storage.AddUser | app.py:12-19 | Adding a user is refused exactly when the username or the email is already taken, reporting the username clash first. Otherwise it appends one row with the given fields and a fresh id, and changes nothing else. |
| Storage.NewPost | app.py:46-53 | The constructor stores title, body, category and author as given. The publication date is the given `pub_date`, or `now` when none was given. |
| Storage.AddPost | app.py:38-53 | Adding a post succeeds exactly when its category and author are stored rows. The new row records their ids, a fresh id of its own and the given title, body and date. Nothing else changes. |
| Storage.AddCategoryPreservesValid | app.py:69-74 | Adding a category keeps every schema constraint. |
| Storage.AddUserPreservesValid | app.py:14-15 | Every successful user insert keeps usernames and emails unique, along with the other constraints. |
| Storage.AddPostPreservesValid | app.py:38-44 | Every successful post insert keeps ids unique and foreign keys resolving. |
| Serialize.PostObject | app.py:58-66 | A post serialises to exactly the keys id, title, body, pub_date, category and author, in that order, each holding the matching field. |
| Serialize.PostJson | app.py:58-66 | `Post.json` succeeds exactly when both referenced rows exist. It then has the six post keys, with `pub_date` rendered and `category` and `author` taken from rows carrying the post's foreign keys. With no matching category it fails. |
| Serialize.PostsJson | app.py:28 | A list of posts serialises element by element in order, and succeeds exactly when each post does. |
| Serialize.UserObject | app.py:24-29 | A user serialises to exactly the keys id, username and posts, in that order. |
| Serialize.UserJson | app.py:24-29 | `User.json` succeeds exactly when each of the user's posts serialises. Its `posts` array is the in-order serialisation of the user's posts. |
| Serialize.CategoryObject | app.py:79-84 | A category serialises to exactly the keys id, name and posts, in that order. |
| Serialize.CategoryJson | app.py:79-84 | `Category.json` succeeds exactly when each of the category's posts serialises. Its `posts` array is the in-order serialisation of the category's posts. |
| Serialize.PostJsonNamesReferences | app.py:58-66 | In a valid store every post serialises. Its `category` is the name of the category its `category_id` refers to, and its `author` is the username of the user its `author_id` refers to. |
| Serialize.PostsJsonMembers | app.py:28 | A serialised list contains a value exactly when that value serialises one of the listed posts. |
| Serialize.ValidPostsSerialise | app.py:58-66 | Any list of posts drawn from a valid store serialises without failure. |
| Serialize.UserJsonPostsExact | app.py:24-29 | A user's `posts` holds one entry per post with that `author_id`. A value is in it exactly when it serialises such a post: none missing, none extra. |
| Serialize.CategoryJsonPostsExact | app.py:79-84 | A category's `posts` holds one entry per post with that `category_id`. A value is in it exactly when it serialises such a post. |
| Serialize.NewPostSerialises | app.py:46-66 | A post built from stored rows and added to a valid store serialises with the given title and body, the given date or else `now`, and its category's name and author's username. |
| Handlers.Wrap | app.py:90 | A handler's body is an object whose only key is the resource name, and it holds the list. |
| Handlers.UserList | app.py:87-90 | `/users` succeeds exactly when every user serialises. It then holds one entry per user row, and entry i is user i's serialisation. |
| Handlers.PostList | app.py:93-96 | `/posts` succeeds exactly when every post serialises. It then holds one entry per post row, and entry i is post i's serialisation. |
| Handlers.CategoryList | app.py:99-102 | `/categories` succeeds exactly when every category serialises. It then holds one entry per category row, and entry i is category i's serialisation. |
| Handlers.ValidStoreServes | app.py:87-102 | On a valid store none of the three handlers fails. |
| Handlers.ListedUserLocates | app.py:87-90 | Each listed user's id finds exactly its own row, and the listed username is that row's username. |
| Handlers.ListedPostLocates | app.py:93-96 | Each listed post's id finds exactly its own row, and the listed title and body are that row's. |
| Handlers.ListedCategoryLocates | app.py:99-102 | Each listed category's id finds exactly its own row, and the listed name is that row's name. |
| Seed.Populate | app.py:110-127 | From any store, seeding yields exactly the sample store: categories Python and Mooc, users guido and john, and the three sample posts. Ids are 1, 2, 3 in insertion order. |
| Seed.PopulateIdempotent | app.py:110-112 | Seeding twice gives the same store as seeding once: 2 categories, 2 users and 3 posts, with no leftovers. |
| Seed.SeededStoreValid | app.py:113-119 | The sample data meets every unique and foreign-key constraint. |
| Seed.SeededCategoryList | app.py:113-114 | On the seeded store, which `Seed.Populate` returns, `/categories` lists exactly "Python" and then "Mooc". |
| Seed.SeededUserList | app.py:115-116 | On the seeded store, `/users` lists exactly "guido" and then "john". |
| Seed.SeededPostList | app.py:117-119 | On the seeded store, `/posts` lists the three sample posts in order. Each shows its title, body, category name, author username and the clock reading taken when it was built. |

## Left out

- Flask application, `Api` route registration and `app.run()`: this is HTTP plumbing. HTTP status codes and error bodies are not modelled; a handler `Failure` stands for a server error.
- The SQLite connection string, sessions and `commit`: the seed's single commit is modelled as a sequence of inserts. Concurrent readers and transactions are not modelled.
- `lazy='dynamic'` backref loading: modelled only as the foreign-key filter. The queries have no `ORDER BY`, so their order is unspecified; the model assumes table (rowid) order, which rests on SQLite scanning the posts table in rowid order.
- `datetime.utcnow()`: passed in as a `now` parameter. Only the calendar date is kept, because the `"%d/%m/%y"` rendering never shows the time.
- The `__repr__` methods: debug strings with no contract.
- The declared string lengths (`String(80)`, `String(120)`, `String(50)`): SQLite does not enforce them.
- NULL column values: `populate_database`, the only caller of the constructors, passes non-`None` username, email, name, category and author. A `None` category or author (a NULL foreign key, which makes `Post.json` raise just as a missing row does) is not represented.
- Storage.AddPost: a category or author object that is not yet stored is refused with `UnknownCategory` or `UnknownAuthor`. The ORM would instead cascade it into the session and insert it.
- Storage.AddUser: when both unique constraints are violated, the model reports the username clash. The database's own error text is not modelled.
- Storage.NextId: ids are unbounded integers. SQLite's 64-bit rowid limit is not modelled.
- Schema.CategoriesPartitionPosts: the "every post appears exactly once across categories" property is stated over post rows. Each category's JSON list is tied to those rows by Serialize.CategoryJsonPostsExact, rather than by a single permutation statement over JSON values.

/** The relational adapter of src/lib/mysql.ts: the configuration, the connection as an optional
    set of tables, the per-entity create/read/update/delete operations and the migration loop. */
module MySQL {
  import opened Wrappers
  import opened Entities
  import opened Rows
  import opened Lists
  import Text

  // ---------------------------------------------------------------- configuration

  /** The connection settings. The port is kept as the text it is read from. */
  datatype Config = Config(host: string, port: string, user: string, password: string, database: string)

  /** `getEnvVar(key, default)`: the variable when it is set and non-empty, else the default. */
  function EnvOr(env: map<string, string>, key: string, default: string): (v: string)
    ensures key in env && env[key] != "" ==> v == env[key]
    ensures !(key in env && env[key] != "") ==> v == default
  {
    if key in env && env[key] != "" then env[key] else default
  }

  /** The settings the constructor reads, with their defaults. */
  function ConfigFrom(env: map<string, string>): (c: Config)
    ensures c.host != "" && c.port != ""
    ensures "VITE_MYSQL_USER" !in env ==> c.user == ""
  {
    Config(EnvOr(env, "VITE_MYSQL_HOST", "localhost"), EnvOr(env, "VITE_MYSQL_PORT", "3306"),
           EnvOr(env, "VITE_MYSQL_USER", ""), EnvOr(env, "VITE_MYSQL_PASSWORD", ""),
           EnvOr(env, "VITE_MYSQL_DATABASE", ""))
  }

  /** `connect` only tries a connection when user, password and database are all non-empty. */
  predicate Complete(c: Config) {
    c.user != "" && c.password != "" && c.database != ""
  }

  // ---------------------------------------------------------------- tables

  /** The content of the database: one table of rows per entity kind. */
  datatype Tables = Tables(
    users: seq<UserRow>, categories: seq<CategoryRow>, posts: seq<PostRow>,
    comments: seq<CommentRow>, contacts: seq<ContactRow>, newsletters: seq<NewsletterRow>)

  function TotalRows(t: Tables): nat {
    |t.users| + |t.categories| + |t.posts| + |t.comments| + |t.contacts| + |t.newsletters|
  }

  /** Every table of `t` is a prefix of the same table of `u`: rows were only added at the end. */
  predicate Extends(t: Tables, u: Tables) {
    t.users <= u.users && t.categories <= u.categories && t.posts <= u.posts &&
    t.comments <= u.comments && t.contacts <= u.contacts && t.newsletters <= u.newsletters
  }

  /** What opening the connection yields: no server, a server on which creating the schema
      failed, or a ready server. The tables are what the database already holds. */
  datatype ConnectAttempt = Unreachable | SchemaFailed(tables: Tables) | Opened(tables: Tables)

  /** The first row with the id, as `rows[0]` of a `SELECT ... WHERE id = ?`. */
  function RowById<R>(rows: seq<R>, id: Id, key: R -> Id): (r: Option<R>)
    ensures r.None? <==> !Taken(rows, id, key)
    ensures r.Some? ==> key(r.value) == id && r.value in rows
  {
    Find(rows, HasKey(key, id))
  }

  /** One UPDATE statement applied to one row. */
  function Rewrite<R>(stmt: seq<Assignment>, assign: (R, Assignment) -> R): R -> R {
    (row: R) => ApplyAll(row, stmt, assign)
  }

  /** `UPDATE ... WHERE id = ?`: the statement applied to every row with the id. */
  function UpdateWhere<R>(rows: seq<R>, id: Id, key: R -> Id, stmt: seq<Assignment>,
                          assign: (R, Assignment) -> R): (r: seq<R>)
    ensures |r| == |rows|
    ensures forall i :: 0 <= i < |rows| && key(rows[i]) != id ==> r[i] == rows[i]
  {
    MapWhere(rows, HasKey(key, id), Rewrite(stmt, assign))
  }

  /** When the statement keeps the id of a row, the row found by id after the update is the
      one found before with the statement applied. */
  lemma UpdateThenFind<R>(rows: seq<R>, id: Id, key: R -> Id, stmt: seq<Assignment>,
                          assign: (R, Assignment) -> R)
    requires forall row: R :: key(ApplyAll(row, stmt, assign)) == key(row)
    ensures var before := RowById(rows, id, key);
            RowById(UpdateWhere(rows, id, key, stmt, assign), id, key) ==
            if before.Some? then Some(ApplyAll(before.value, stmt, assign)) else None
  {
    FindAfterMapWhere(rows, HasKey(key, id), Rewrite(stmt, assign));
  }

  /** The row found by id after an UPDATE that may have been skipped: none when there was
      none, the same row when no field was left, otherwise the row with the statement applied. */
  lemma FindAfterUpdate<R>(rows: seq<R>, after: seq<R>, id: Id, key: R -> Id,
                           fields: seq<Assignment>, now: Timestamp, assign: (R, Assignment) -> R)
    requires fields == [] ==> after == rows
    requires fields != [] ==> after == UpdateWhere(rows, id, key, Statement(fields, now), assign)
    requires forall row: R :: key(ApplyAll(row, Statement(fields, now), assign)) == key(row)
    ensures var before := RowById(rows, id, key);
            RowById(after, id, key) ==
            if before.None? then None
            else if fields == [] then before
            else Some(ApplyAll(before.value, Statement(fields, now), assign))
  {
    if fields != [] {
      UpdateThenFind(rows, id, key, Statement(fields, now), assign);
    }
  }

  /** `DELETE ... WHERE id = ?`: the rows that keep their place are exactly those with another id. */
  function DeleteWhere<R>(rows: seq<R>, id: Id, key: R -> Id): (kept: seq<R>)
    ensures |kept| < |rows| <==> Taken(rows, id, key)
    ensures !Taken(kept, id, key)
    ensures forall i :: 0 <= i < |rows| && key(rows[i]) != id ==> rows[i] in kept
    ensures forall i :: 0 <= i < |kept| ==> kept[i] in rows && key(kept[i]) != id
  {
    FilterMembers(rows, (row: R) => key(row) != id);
    Filter(rows, (row: R) => key(row) != id)
  }

  // ---------------------------------------------------------------- users

  function UserKey(row: UserRow): Id { row.id }
  function UserEmail(row: UserRow): string { row.email }

  /** `SELECT * FROM users WHERE id = ?`, first row, decoded; null when there is none. */
  function UserById(t: Tables, id: Id): (r: Option<User>)
    ensures r.None? <==> !Taken(t.users, id, UserKey)
    ensures r.Some? ==> r.value.id == id
  {
    var row := RowById(t.users, id, UserKey);
    if row.Some? then Some(UserFromRow(row.value)) else None
  }

  /** The INSERT of `createUser`: refused when it would leave the NOT NULL `name` or `password`
      column empty, or repeat a primary key or an e-mail. */
  function InsertUser(t: Tables, d: UserDraft, s: Stamp): (r: Result<Tables>)
    ensures r.Ok? <==> d.name.Some? && d.password.Some? &&
                       !Taken(t.users, s.id, UserKey) && !Taken(t.users, d.email, UserEmail)
    ensures r.Ok? ==> r.value == t.(users := t.users + [UserRowOf(d, s)])
    ensures d.name.None? ==> r == Err(BadValue("name"))
    ensures d.name.Some? && d.password.None? ==> r == Err(BadValue("password"))
    ensures d.name.Some? && d.password.Some? && r.Err? ==> r.error.DuplicateKey?
  {
    var row := UserRowOf(d, s);
    if row.name.None? then Err(BadValue("name"))
    else if row.password.None? then Err(BadValue("password"))
    else if Taken(t.users, row.id, UserKey) then Err(DuplicateKey("id"))
    else if Taken(t.users, row.email, UserEmail) then Err(DuplicateKey("email"))
    else Ok(t.(users := t.users + [row]))
  }

  /** Reading a freshly created user by its new id finds it; the phone is gone and a MODERATOR reads
      back as a USER. */
  lemma UserCreateThenRead(t: Tables, d: UserDraft, s: Stamp)
    requires InsertUser(t, d, s).Ok?
    ensures UserById(InsertUser(t, d, s).value, s.id) == Some(CreatedUser(d, s).(phone := None, role := if d.role == MODERATOR then USER else d.role))
  {
    var row := UserRowOf(d, s);
    assert UserKey(row) == s.id;
    assert HasKey(UserKey, s.id)(row);
    FindAppended(t.users, row, HasKey(UserKey, s.id));
  }

  /** The UPDATE of `updateUser`: nothing is written when no field is left, otherwise the
      fields and `updated_at` are assigned in the row with that id. */
  function UpdateUserRows(t: Tables, id: Id, p: UserPatch, now: Timestamp): (r: Result<Tables>)
    ensures Fields(UserKeys(p)) == [] ==> r == Ok(t)
    ensures r.Ok? ==> r.value.(users := t.users) == t && |r.value.users| == |t.users|
    ensures r.Ok? && Fields(UserKeys(p)) != [] ==>
              r.value.users == UpdateWhere(t.users, id, UserKey, Statement(Fields(UserKeys(p)), now), SetUserColumn)
  {
    var fields := Fields(UserKeys(p));
    if fields == [] then Ok(t)
    else
      var stmt := Statement(fields, now);
      match Rejection(stmt, UserColumn)
      case Some(e) => Err(e)
      case None => Ok(t.(users := UpdateWhere(t.users, id, UserKey, stmt, SetUserColumn)))
  }

  /** The row with that id after an accepted update: the one before with the statement
      applied, or untouched when no field is left. */
  lemma UserRowAfterUpdate(t: Tables, id: Id, p: UserPatch, now: Timestamp)
    requires UpdateUserRows(t, id, p, now).Ok?
    ensures var before := RowById(t.users, id, UserKey);
            var stmt := Statement(Fields(UserKeys(p)), now);
            RowById(UpdateUserRows(t, id, p, now).value.users, id, UserKey) ==
            if before.None? then None
            else if Fields(UserKeys(p)) == [] then before
            else Some(ApplyAll(before.value, stmt, SetUserColumn))
  {
    UserStatementKeepsKey(p, now);
    FindAfterUpdate(t.users, UpdateUserRows(t, id, p, now).value.users, id, UserKey,
                    Fields(UserKeys(p)), now, SetUserColumn);
  }

  /** The UPDATE of a user never changes the key of a row. */
  lemma UserStatementKeepsKey(p: UserPatch, now: Timestamp)
    ensures var stmt := Statement(Fields(UserKeys(p)), now);
            forall r: UserRow :: UserKey(ApplyAll(r, stmt, SetUserColumn)) == UserKey(r)
  {
    var stmt := Statement(Fields(UserKeys(p)), now);
    forall r: UserRow
      ensures UserKey(ApplyAll(r, stmt, SetUserColumn)) == UserKey(r)
    {
      ApplyAllUserColumns(r, stmt);
      IdentityStamped(UserKeys(p), now, r.id, r.updated_at);
    }
  }

  /** After an accepted update the user with that id is still found exactly when it was
      before, with the e-mail, name and role it carries written (a MODERATOR reads back as a USER),
      and `updatedAt` stamped when a field was written; nothing else changes. */
  lemma UserUpdateThenRead(t: Tables, id: Id, p: UserPatch, now: Timestamp)
    requires UpdateUserRows(t, id, p, now).Ok?
    ensures var before, after := UserById(t, id), UserById(UpdateUserRows(t, id, p, now).value, id);
            (after.Some? <==> before.Some?) &&
            (after.Some? ==>
               var b := before.value;
               var stamped := if Fields(UserKeys(p)) != [] then now else b.updatedAt;
               after.value ==
               b.(email := GetOr(p.email, b.email),
                  name := OrElse(p.name, b.name),
                  role := if p.role.Some? then (if p.role.value == MODERATOR then USER else p.role.value) else b.role,
                  updatedAt := stamped))
  {
    var row := RowById(t.users, id, UserKey);
    UserRowAfterUpdate(t, id, p, now);
    if row.Some? {
      UserUpdateWrites(row.value, p, now);
      UserUpdateDecodes(row.value, p, now);
    }
  }

  /** The DELETE of `deleteUser`: reports a removed row exactly when one had the id, and leaves
      none with it. */
  function DeleteUserRows(t: Tables, id: Id): (r: (Tables, bool))
    ensures r.1 <==> UserById(t, id).Some?
    ensures UserById(r.0, id).None?
    ensures r.0.(users := t.users) == t
    ensures forall x :: x in r.0.users <==> x in t.users && UserKey(x) != id
  {
    var kept := DeleteWhere(t.users, id, UserKey);
    (t.(users := kept), |kept| < |t.users|)
  }

  // ---------------------------------------------------------------- categories

  function CategoryKey(row: CategoryRow): Id { row.id }

  /** `SELECT * FROM categories WHERE id = ?`, first row, decoded; null when there is none. */
  function CategoryById(t: Tables, id: Id): (r: Option<Category>)
    ensures r.None? <==> !Taken(t.categories, id, CategoryKey)
    ensures r.Some? ==> r.value.id == id
  {
    var row := RowById(t.categories, id, CategoryKey);
    if row.Some? then Some(CategoryFromRow(row.value)) else None
  }

  /** The INSERT of `createCategory`: refused when it would repeat a primary key. */
  function InsertCategory(t: Tables, d: CategoryDraft, s: Stamp): (r: Result<Tables>)
    ensures r.Ok? <==> !Taken(t.categories, s.id, CategoryKey)
    ensures r.Ok? ==> r.value == t.(categories := t.categories + [CategoryRowOf(d, s)])
    ensures r.Err? ==> r.error.DuplicateKey?
  {
    var row := CategoryRowOf(d, s);
    if Taken(t.categories, row.id, CategoryKey) then Err(DuplicateKey("id"))
    else Ok(t.(categories := t.categories + [row]))
  }

  /** Reading a freshly created category by its new id finds it; the slug is derived from the name,
      not the one given. */
  lemma CategoryCreateThenRead(t: Tables, d: CategoryDraft, s: Stamp)
    requires InsertCategory(t, d, s).Ok?
    ensures CategoryById(InsertCategory(t, d, s).value, s.id) == Some(CreatedCategory(d, s).(slug := Text.Slugify(d.name)))
  {
    var row := CategoryRowOf(d, s);
    assert CategoryKey(row) == s.id;
    assert HasKey(CategoryKey, s.id)(row);
    FindAppended(t.categories, row, HasKey(CategoryKey, s.id));
  }

  /** The UPDATE of `updateCategory`: nothing is written when no field is left, otherwise the
      fields and `updated_at` are assigned in the row with that id. */
  function UpdateCategoryRows(t: Tables, id: Id, p: CategoryPatch, now: Timestamp): (r: Result<Tables>)
    ensures Fields(CategoryKeys(p)) == [] ==> r == Ok(t)
    ensures r.Ok? ==> r.value.(categories := t.categories) == t && |r.value.categories| == |t.categories|
    ensures r.Ok? && Fields(CategoryKeys(p)) != [] ==>
              r.value.categories == UpdateWhere(t.categories, id, CategoryKey, Statement(Fields(CategoryKeys(p)), now), SetCategoryColumn)
  {
    var fields := Fields(CategoryKeys(p));
    if fields == [] then Ok(t)
    else
      var stmt := Statement(fields, now);
      match Rejection(stmt, CategoryColumn)
      case Some(e) => Err(e)
      case None => Ok(t.(categories := UpdateWhere(t.categories, id, CategoryKey, stmt, SetCategoryColumn)))
  }

  /** The row with that id after an accepted update: the one before with the statement
      applied, or untouched when no field is left. */
  lemma CategoryRowAfterUpdate(t: Tables, id: Id, p: CategoryPatch, now: Timestamp)
    requires UpdateCategoryRows(t, id, p, now).Ok?
    ensures var before := RowById(t.categories, id, CategoryKey);
            var stmt := Statement(Fields(CategoryKeys(p)), now);
            RowById(UpdateCategoryRows(t, id, p, now).value.categories, id, CategoryKey) ==
            if before.None? then None
            else if Fields(CategoryKeys(p)) == [] then before
            else Some(ApplyAll(before.value, stmt, SetCategoryColumn))
  {
    CategoryStatementKeepsKey(p, now);
    FindAfterUpdate(t.categories, UpdateCategoryRows(t, id, p, now).value.categories, id, CategoryKey,
                    Fields(CategoryKeys(p)), now, SetCategoryColumn);
  }

  /** The UPDATE of a category never changes the key of a row. */
  lemma CategoryStatementKeepsKey(p: CategoryPatch, now: Timestamp)
    ensures var stmt := Statement(Fields(CategoryKeys(p)), now);
            forall r: CategoryRow :: CategoryKey(ApplyAll(r, stmt, SetCategoryColumn)) == CategoryKey(r)
  {
    var stmt := Statement(Fields(CategoryKeys(p)), now);
    forall r: CategoryRow
      ensures CategoryKey(ApplyAll(r, stmt, SetCategoryColumn)) == CategoryKey(r)
    {
      ApplyAllCategoryColumns(r, stmt);
      IdentityStamped(CategoryKeys(p), now, r.id, r.updated_at);
    }
  }

  /** After an accepted update the category with that id is still found exactly when it was before,
      with the name, description and colour it carries written and the slug derived from the name,
      and `updatedAt` stamped when a field was written; nothing else changes. */
  lemma CategoryUpdateThenRead(t: Tables, id: Id, p: CategoryPatch, now: Timestamp)
    requires UpdateCategoryRows(t, id, p, now).Ok?
    ensures var before, after := CategoryById(t, id), CategoryById(UpdateCategoryRows(t, id, p, now).value, id);
            (after.Some? <==> before.Some?) &&
            (after.Some? ==>
               var b := before.value;
               var stamped := if Fields(CategoryKeys(p)) != [] then now else b.updatedAt;
               after.value ==
               b.(name := GetOr(p.name, b.name),
                  slug := Text.Slugify(GetOr(p.name, b.name)),
                  description := OrElse(p.description, b.description),
                  color := OrElse(p.color, b.color),
                  updatedAt := stamped))
  {
    var row := RowById(t.categories, id, CategoryKey);
    CategoryRowAfterUpdate(t, id, p, now);
    if row.Some? {
      CategoryUpdateWrites(row.value, p, now);
      CategoryUpdateDecodes(row.value, p, now);
    }
  }

  /** The DELETE of `deleteCategory`: reports a removed row exactly when one had the id, and leaves
      none with it. */
  function DeleteCategoryRows(t: Tables, id: Id): (r: (Tables, bool))
    ensures r.1 <==> CategoryById(t, id).Some?
    ensures CategoryById(r.0, id).None?
    ensures r.0.(categories := t.categories) == t
    ensures forall x :: x in r.0.categories <==> x in t.categories && CategoryKey(x) != id
  {
    var kept := DeleteWhere(t.categories, id, CategoryKey);
    (t.(categories := kept), |kept| < |t.categories|)
  }

  // ---------------------------------------------------------------- posts

  function PostKey(row: PostRow): Id { row.id }

  /** `SELECT * FROM posts WHERE id = ?`, first row, decoded; null when there is none. */
  function PostById(t: Tables, id: Id): (r: Option<Post>)
    ensures r.None? <==> !Taken(t.posts, id, PostKey)
    ensures r.Some? ==> r.value.id == id
  {
    var row := RowById(t.posts, id, PostKey);
    if row.Some? then Some(PostFromRow(row.value)) else None
  }

  /** The INSERT of `createPost`: refused when it would repeat a primary key. */
  function InsertPost(t: Tables, d: PostDraft, s: Stamp): (r: Result<Tables>)
    ensures r.Ok? <==> !Taken(t.posts, s.id, PostKey)
    ensures r.Ok? ==> r.value == t.(posts := t.posts + [PostRowOf(d, s)])
    ensures r.Err? ==> r.error.DuplicateKey?
  {
    var row := PostRowOf(d, s);
    if Taken(t.posts, row.id, PostKey) then Err(DuplicateKey("id"))
    else Ok(t.(posts := t.posts + [row]))
  }

  /** Reading a freshly created post by its new id finds it; the slug is derived from the title,
      `publishedAt` is the creation time exactly for a published post, and only the first category
      is kept. */
  lemma PostCreateThenRead(t: Tables, d: PostDraft, s: Stamp)
    requires InsertPost(t, d, s).Ok?
    ensures PostById(InsertPost(t, d, s).value, s.id) == Some(CreatedPost(d, s).(
                slug := Text.Slugify(d.title),
                publishedAt := if d.status == PUBLISHED then Some(s.now) else None,
                categories := Lists.Take(d.categories, 1)))
  {
    var row := PostRowOf(d, s);
    assert PostKey(row) == s.id;
    assert HasKey(PostKey, s.id)(row);
    FindAppended(t.posts, row, HasKey(PostKey, s.id));
  }

  /** The UPDATE of `updatePost`: nothing is written when no field is left, otherwise the
      fields and `updated_at` are assigned in the row with that id. */
  function UpdatePostRows(t: Tables, id: Id, p: PostPatch, now: Timestamp): (r: Result<Tables>)
    ensures Fields(PostKeys(p)) == [] ==> r == Ok(t)
    ensures r.Ok? ==> r.value.(posts := t.posts) == t && |r.value.posts| == |t.posts|
    ensures r.Ok? && Fields(PostKeys(p)) != [] ==>
              r.value.posts == UpdateWhere(t.posts, id, PostKey, Statement(Fields(PostKeys(p)), now), SetPostColumn)
  {
    var fields := Fields(PostKeys(p));
    if fields == [] then Ok(t)
    else
      var stmt := Statement(fields, now);
      match Rejection(stmt, PostColumn)
      case Some(e) => Err(e)
      case None => Ok(t.(posts := UpdateWhere(t.posts, id, PostKey, stmt, SetPostColumn)))
  }

  /** The row with that id after an accepted update: the one before with the statement
      applied, or untouched when no field is left. */
  lemma PostRowAfterUpdate(t: Tables, id: Id, p: PostPatch, now: Timestamp)
    requires UpdatePostRows(t, id, p, now).Ok?
    ensures var before := RowById(t.posts, id, PostKey);
            var stmt := Statement(Fields(PostKeys(p)), now);
            RowById(UpdatePostRows(t, id, p, now).value.posts, id, PostKey) ==
            if before.None? then None
            else if Fields(PostKeys(p)) == [] then before
            else Some(ApplyAll(before.value, stmt, SetPostColumn))
  {
    PostStatementKeepsKey(p, now);
    FindAfterUpdate(t.posts, UpdatePostRows(t, id, p, now).value.posts, id, PostKey,
                    Fields(PostKeys(p)), now, SetPostColumn);
  }

  /** The UPDATE of a post never changes the key of a row. */
  lemma PostStatementKeepsKey(p: PostPatch, now: Timestamp)
    ensures var stmt := Statement(Fields(PostKeys(p)), now);
            forall r: PostRow :: PostKey(ApplyAll(r, stmt, SetPostColumn)) == PostKey(r)
  {
    var stmt := Statement(Fields(PostKeys(p)), now);
    forall r: PostRow
      ensures PostKey(ApplyAll(r, stmt, SetPostColumn)) == PostKey(r)
    {
      ApplyAllPostColumns(r, stmt);
      IdentityStamped(PostKeys(p), now, r.id, r.updated_at);
    }
  }

  /** After an accepted update the post with that id is still found exactly when it was before, with
      the title, content, excerpt and status it carries written, the slug derived from the title,
      `publishedAt` following the status, and the first given category as the only one, and
      `updatedAt` stamped when a field was written; nothing else changes. */
  lemma PostUpdateThenRead(t: Tables, id: Id, p: PostPatch, now: Timestamp)
    requires UpdatePostRows(t, id, p, now).Ok?
    ensures var before, after := PostById(t, id), PostById(UpdatePostRows(t, id, p, now).value, id);
            (after.Some? <==> before.Some?) &&
            (after.Some? ==>
               var b := before.value;
               var stamped := if Fields(PostKeys(p)) != [] then now else b.updatedAt;
               after.value ==
               b.(title := GetOr(p.title, b.title),
                  content := OrElse(p.content, b.content),
                  excerpt := OrElse(p.excerpt, b.excerpt),
                  slug := Text.Slugify(GetOr(p.title, b.title)),
                  status := GetOr(p.status, b.status),
                  publishedAt := if GetOr(p.status, b.status) == PUBLISHED then Some(stamped) else None,
                  categories := if CategoryIdOf(p).Some? then [CategoryIdOf(p).value] else b.categories,
                  updatedAt := stamped))
  {
    var row := RowById(t.posts, id, PostKey);
    PostRowAfterUpdate(t, id, p, now);
    if row.Some? {
      PostUpdateWrites(row.value, p, now);
      PostUpdateDecodes(row.value, p, now);
    }
  }

  /** The DELETE of `deletePost`: reports a removed row exactly when one had the id, and leaves
      none with it. */
  function DeletePostRows(t: Tables, id: Id): (r: (Tables, bool))
    ensures r.1 <==> PostById(t, id).Some?
    ensures PostById(r.0, id).None?
    ensures r.0.(posts := t.posts) == t
    ensures forall x :: x in r.0.posts <==> x in t.posts && PostKey(x) != id
  {
    var kept := DeleteWhere(t.posts, id, PostKey);
    (t.(posts := kept), |kept| < |t.posts|)
  }

  // ---------------------------------------------------------------- comments

  function CommentKey(row: CommentRow): Id { row.id }

  /** `SELECT * FROM comments WHERE id = ?`, first row, decoded; null when there is none. */
  function CommentById(t: Tables, id: Id): (r: Option<Comment>)
    ensures r.None? <==> !Taken(t.comments, id, CommentKey)
    ensures r.Some? ==> r.value.id == id
  {
    var row := RowById(t.comments, id, CommentKey);
    if row.Some? then Some(CommentFromRow(row.value)) else None
  }

  /** The INSERT of `createComment`: refused when it would repeat a primary key. */
  function InsertComment(t: Tables, d: CommentDraft, s: Stamp): (r: Result<Tables>)
    ensures r.Ok? <==> !Taken(t.comments, s.id, CommentKey)
    ensures r.Ok? ==> r.value == t.(comments := t.comments + [CommentRowOf(d, s)])
    ensures r.Err? ==> r.error.DuplicateKey?
  {
    var row := CommentRowOf(d, s);
    if Taken(t.comments, row.id, CommentKey) then Err(DuplicateKey("id"))
    else Ok(t.(comments := t.comments + [row]))
  }

  /** Reading a freshly created comment by its new id finds it; it is exactly what create returned. */
  lemma CommentCreateThenRead(t: Tables, d: CommentDraft, s: Stamp)
    requires InsertComment(t, d, s).Ok?
    ensures CommentById(InsertComment(t, d, s).value, s.id) == Some(CreatedComment(d, s))
  {
    var row := CommentRowOf(d, s);
    assert CommentKey(row) == s.id;
    assert HasKey(CommentKey, s.id)(row);
    FindAppended(t.comments, row, HasKey(CommentKey, s.id));
  }

  /** The UPDATE of `updateComment`: nothing is written when no field is left, otherwise the
      fields and `updated_at` are assigned in the row with that id. */
  function UpdateCommentRows(t: Tables, id: Id, p: CommentPatch, now: Timestamp): (r: Result<Tables>)
    ensures Fields(CommentKeys(p)) == [] ==> r == Ok(t)
    ensures r.Ok? ==> r.value.(comments := t.comments) == t && |r.value.comments| == |t.comments|
    ensures r.Ok? && Fields(CommentKeys(p)) != [] ==>
              r.value.comments == UpdateWhere(t.comments, id, CommentKey, Statement(Fields(CommentKeys(p)), now), SetCommentColumn)
  {
    var fields := Fields(CommentKeys(p));
    if fields == [] then Ok(t)
    else
      var stmt := Statement(fields, now);
      match Rejection(stmt, CommentColumn)
      case Some(e) => Err(e)
      case None => Ok(t.(comments := UpdateWhere(t.comments, id, CommentKey, stmt, SetCommentColumn)))
  }

  /** The row with that id after an accepted update: the one before with the statement
      applied, or untouched when no field is left. */
  lemma CommentRowAfterUpdate(t: Tables, id: Id, p: CommentPatch, now: Timestamp)
    requires UpdateCommentRows(t, id, p, now).Ok?
    ensures var before := RowById(t.comments, id, CommentKey);
            var stmt := Statement(Fields(CommentKeys(p)), now);
            RowById(UpdateCommentRows(t, id, p, now).value.comments, id, CommentKey) ==
            if before.None? then None
            else if Fields(CommentKeys(p)) == [] then before
            else Some(ApplyAll(before.value, stmt, SetCommentColumn))
  {
    CommentStatementKeepsKey(p, now);
    FindAfterUpdate(t.comments, UpdateCommentRows(t, id, p, now).value.comments, id, CommentKey,
                    Fields(CommentKeys(p)), now, SetCommentColumn);
  }

  /** The UPDATE of a comment never changes the key of a row. */
  lemma CommentStatementKeepsKey(p: CommentPatch, now: Timestamp)
    ensures var stmt := Statement(Fields(CommentKeys(p)), now);
            forall r: CommentRow :: CommentKey(ApplyAll(r, stmt, SetCommentColumn)) == CommentKey(r)
  {
    var stmt := Statement(Fields(CommentKeys(p)), now);
    forall r: CommentRow
      ensures CommentKey(ApplyAll(r, stmt, SetCommentColumn)) == CommentKey(r)
    {
      ApplyAllCommentColumns(r, stmt);
      IdentityStamped(CommentKeys(p), now, r.id, r.updated_at);
    }
  }

  /** After an accepted update the comment with that id is still found exactly when it was
      before, with the content it carries written,
      and `updatedAt` stamped when a field was written; nothing else changes. */
  lemma CommentUpdateThenRead(t: Tables, id: Id, p: CommentPatch, now: Timestamp)
    requires UpdateCommentRows(t, id, p, now).Ok?
    ensures var before, after := CommentById(t, id), CommentById(UpdateCommentRows(t, id, p, now).value, id);
            (after.Some? <==> before.Some?) &&
            (after.Some? ==>
               var b := before.value;
               var stamped := if Fields(CommentKeys(p)) != [] then now else b.updatedAt;
               after.value ==
               b.(content := GetOr(p.content, b.content),
                  updatedAt := stamped))
  {
    var row := RowById(t.comments, id, CommentKey);
    CommentRowAfterUpdate(t, id, p, now);
    if row.Some? {
      CommentUpdateWrites(row.value, p, now);
      CommentUpdateDecodes(row.value, p, now);
    }
  }

  /** The DELETE of `deleteComment`: reports a removed row exactly when one had the id, and leaves
      none with it. */
  function DeleteCommentRows(t: Tables, id: Id): (r: (Tables, bool))
    ensures r.1 <==> CommentById(t, id).Some?
    ensures CommentById(r.0, id).None?
    ensures r.0.(comments := t.comments) == t
    ensures forall x :: x in r.0.comments <==> x in t.comments && CommentKey(x) != id
  {
    var kept := DeleteWhere(t.comments, id, CommentKey);
    (t.(comments := kept), |kept| < |t.comments|)
  }

  // ---------------------------------------------------------------- contacts

  function ContactKey(row: ContactRow): Id { row.id }

  /** `SELECT * FROM contacts WHERE id = ?`, first row, decoded; null when there is none. */
  function ContactById(t: Tables, id: Id): (r: Option<Contact>)
    ensures r.None? <==> !Taken(t.contacts, id, ContactKey)
    ensures r.Some? ==> r.value.id == id
  {
    var row := RowById(t.contacts, id, ContactKey);
    if row.Some? then Some(ContactFromRow(row.value)) else None
  }

  /** The INSERT of `createContact`: refused when it would repeat a primary key. */
  function InsertContact(t: Tables, d: ContactDraft, s: Stamp): (r: Result<Tables>)
    ensures r.Ok? <==> !Taken(t.contacts, s.id, ContactKey)
    ensures r.Ok? ==> r.value == t.(contacts := t.contacts + [ContactRowOf(d, s)])
    ensures r.Err? ==> r.error.DuplicateKey?
  {
    var row := ContactRowOf(d, s);
    if Taken(t.contacts, row.id, ContactKey) then Err(DuplicateKey("id"))
    else Ok(t.(contacts := t.contacts + [row]))
  }

  /** Reading a freshly created contact by its new id finds it; an empty phone number reads back as
      absent. */
  lemma ContactCreateThenRead(t: Tables, d: ContactDraft, s: Stamp)
    requires InsertContact(t, d, s).Ok?
    ensures ContactById(InsertContact(t, d, s).value, s.id) == Some(CreatedContact(d, s).(phone := Truthy(d.phone)))
  {
    var row := ContactRowOf(d, s);
    assert ContactKey(row) == s.id;
    assert HasKey(ContactKey, s.id)(row);
    FindAppended(t.contacts, row, HasKey(ContactKey, s.id));
  }

  /** The UPDATE of `updateContact`: nothing is written when no field is left, otherwise the
      fields and `updated_at` are assigned in the row with that id. */
  function UpdateContactRows(t: Tables, id: Id, p: ContactPatch, now: Timestamp): (r: Result<Tables>)
    ensures Fields(ContactKeys(p)) == [] ==> r == Ok(t)
    ensures r.Ok? ==> r.value.(contacts := t.contacts) == t && |r.value.contacts| == |t.contacts|
    ensures r.Ok? && Fields(ContactKeys(p)) != [] ==>
              r.value.contacts == UpdateWhere(t.contacts, id, ContactKey, Statement(Fields(ContactKeys(p)), now), SetContactColumn)
  {
    var fields := Fields(ContactKeys(p));
    if fields == [] then Ok(t)
    else
      var stmt := Statement(fields, now);
      match Rejection(stmt, ContactColumn)
      case Some(e) => Err(e)
      case None => Ok(t.(contacts := UpdateWhere(t.contacts, id, ContactKey, stmt, SetContactColumn)))
  }

  /** The row with that id after an accepted update: the one before with the statement
      applied, or untouched when no field is left. */
  lemma ContactRowAfterUpdate(t: Tables, id: Id, p: ContactPatch, now: Timestamp)
    requires UpdateContactRows(t, id, p, now).Ok?
    ensures var before := RowById(t.contacts, id, ContactKey);
            var stmt := Statement(Fields(ContactKeys(p)), now);
            RowById(UpdateContactRows(t, id, p, now).value.contacts, id, ContactKey) ==
            if before.None? then None
            else if Fields(ContactKeys(p)) == [] then before
            else Some(ApplyAll(before.value, stmt, SetContactColumn))
  {
    ContactStatementKeepsKey(p, now);
    FindAfterUpdate(t.contacts, UpdateContactRows(t, id, p, now).value.contacts, id, ContactKey,
                    Fields(ContactKeys(p)), now, SetContactColumn);
  }

  /** The UPDATE of a contact message never changes the key of a row. */
  lemma ContactStatementKeepsKey(p: ContactPatch, now: Timestamp)
    ensures var stmt := Statement(Fields(ContactKeys(p)), now);
            forall r: ContactRow :: ContactKey(ApplyAll(r, stmt, SetContactColumn)) == ContactKey(r)
  {
    var stmt := Statement(Fields(ContactKeys(p)), now);
    forall r: ContactRow
      ensures ContactKey(ApplyAll(r, stmt, SetContactColumn)) == ContactKey(r)
    {
      ApplyAllContactColumns(r, stmt);
      IdentityStamped(ContactKeys(p), now, r.id, r.updated_at);
    }
  }

  /** After an accepted update the contact with that id is still found exactly when it was
      before, with the fields it carries written (an empty phone reads back as none),
      and `updatedAt` stamped when a field was written; nothing else changes. */
  lemma ContactUpdateThenRead(t: Tables, id: Id, p: ContactPatch, now: Timestamp)
    requires UpdateContactRows(t, id, p, now).Ok?
    ensures var before, after := ContactById(t, id), ContactById(UpdateContactRows(t, id, p, now).value, id);
            (after.Some? <==> before.Some?) &&
            (after.Some? ==>
               var b := before.value;
               var stamped := if Fields(ContactKeys(p)) != [] then now else b.updatedAt;
               after.value ==
               b.(name := GetOr(p.name, b.name),
                  email := GetOr(p.email, b.email),
                  phone := if p.phone.Some? then Truthy(p.phone) else b.phone,
                  subject := GetOr(p.subject, b.subject),
                  message := GetOr(p.message, b.message),
                  status := GetOr(p.status, b.status),
                  updatedAt := stamped))
  {
    var row := RowById(t.contacts, id, ContactKey);
    ContactRowAfterUpdate(t, id, p, now);
    if row.Some? {
      ContactUpdateWrites(row.value, p, now);
      ContactUpdateDecodes(row.value, p, now);
    }
  }

  /** The DELETE of `deleteContact`: reports a removed row exactly when one had the id, and leaves
      none with it. */
  function DeleteContactRows(t: Tables, id: Id): (r: (Tables, bool))
    ensures r.1 <==> ContactById(t, id).Some?
    ensures ContactById(r.0, id).None?
    ensures r.0.(contacts := t.contacts) == t
    ensures forall x :: x in r.0.contacts <==> x in t.contacts && ContactKey(x) != id
  {
    var kept := DeleteWhere(t.contacts, id, ContactKey);
    (t.(contacts := kept), |kept| < |t.contacts|)
  }

  // ---------------------------------------------------------------- newsletters

  function NewsletterKey(row: NewsletterRow): Id { row.id }
  function NewsletterEmail(row: NewsletterRow): string { row.email }

  /** `SELECT * FROM newsletters WHERE id = ?`, first row, decoded; null when there is none. */
  function NewsletterById(t: Tables, id: Id): (r: Option<Newsletter>)
    ensures r.None? <==> !Taken(t.newsletters, id, NewsletterKey)
    ensures r.Some? ==> r.value.id == id
  {
    var row := RowById(t.newsletters, id, NewsletterKey);
    if row.Some? then Some(NewsletterFromRow(row.value)) else None
  }

  /** The INSERT of `createNewsletter`: refused when it would repeat a primary key or an e-mail. */
  function InsertNewsletter(t: Tables, d: NewsletterDraft, s: Stamp): (r: Result<Tables>)
    ensures r.Ok? <==> !Taken(t.newsletters, s.id, NewsletterKey) && !Taken(t.newsletters, d.email, NewsletterEmail)
    ensures r.Ok? ==> r.value == t.(newsletters := t.newsletters + [NewsletterRowOf(d, s)])
    ensures r.Err? ==> r.error.DuplicateKey?
  {
    var row := NewsletterRowOf(d, s);
    if Taken(t.newsletters, row.id, NewsletterKey) then Err(DuplicateKey("id"))
    else if Taken(t.newsletters, row.email, NewsletterEmail) then Err(DuplicateKey("email"))
    else Ok(t.(newsletters := t.newsletters + [row]))
  }

  /** Reading a freshly created newsletter by its new id finds it; it is exactly what create
      returned. */
  lemma NewsletterCreateThenRead(t: Tables, d: NewsletterDraft, s: Stamp)
    requires InsertNewsletter(t, d, s).Ok?
    ensures NewsletterById(InsertNewsletter(t, d, s).value, s.id) == Some(CreatedNewsletter(d, s))
  {
    var row := NewsletterRowOf(d, s);
    assert NewsletterKey(row) == s.id;
    assert HasKey(NewsletterKey, s.id)(row);
    FindAppended(t.newsletters, row, HasKey(NewsletterKey, s.id));
  }

  /** The UPDATE of `updateNewsletter`: nothing is written when no field is left, otherwise the
      fields and `updated_at` are assigned in the row with that id. */
  function UpdateNewsletterRows(t: Tables, id: Id, p: NewsletterPatch, now: Timestamp): (r: Result<Tables>)
    ensures Fields(NewsletterKeys(p)) == [] ==> r == Ok(t)
    ensures r.Ok? ==> r.value.(newsletters := t.newsletters) == t && |r.value.newsletters| == |t.newsletters|
    ensures r.Ok? && Fields(NewsletterKeys(p)) != [] ==>
              r.value.newsletters == UpdateWhere(t.newsletters, id, NewsletterKey, Statement(Fields(NewsletterKeys(p)), now), SetNewsletterColumn)
  {
    var fields := Fields(NewsletterKeys(p));
    if fields == [] then Ok(t)
    else
      var stmt := Statement(fields, now);
      match Rejection(stmt, NewsletterColumn)
      case Some(e) => Err(e)
      case None => Ok(t.(newsletters := UpdateWhere(t.newsletters, id, NewsletterKey, stmt, SetNewsletterColumn)))
  }

  /** The row with that id after an accepted update: the one before with the statement
      applied, or untouched when no field is left. */
  lemma NewsletterRowAfterUpdate(t: Tables, id: Id, p: NewsletterPatch, now: Timestamp)
    requires UpdateNewsletterRows(t, id, p, now).Ok?
    ensures var before := RowById(t.newsletters, id, NewsletterKey);
            var stmt := Statement(Fields(NewsletterKeys(p)), now);
            RowById(UpdateNewsletterRows(t, id, p, now).value.newsletters, id, NewsletterKey) ==
            if before.None? then None
            else if Fields(NewsletterKeys(p)) == [] then before
            else Some(ApplyAll(before.value, stmt, SetNewsletterColumn))
  {
    NewsletterStatementKeepsKey(p, now);
    FindAfterUpdate(t.newsletters, UpdateNewsletterRows(t, id, p, now).value.newsletters, id, NewsletterKey,
                    Fields(NewsletterKeys(p)), now, SetNewsletterColumn);
  }

  /** The UPDATE of a newsletter subscription never changes the key of a row. */
  lemma NewsletterStatementKeepsKey(p: NewsletterPatch, now: Timestamp)
    ensures var stmt := Statement(Fields(NewsletterKeys(p)), now);
            forall r: NewsletterRow :: NewsletterKey(ApplyAll(r, stmt, SetNewsletterColumn)) == NewsletterKey(r)
  {
    var stmt := Statement(Fields(NewsletterKeys(p)), now);
    forall r: NewsletterRow
      ensures NewsletterKey(ApplyAll(r, stmt, SetNewsletterColumn)) == NewsletterKey(r)
    {
      ApplyAllNewsletterColumns(r, stmt);
      IdentityStamped(NewsletterKeys(p), now, r.id, r.updated_at);
    }
  }

  /** After an accepted update the newsletter subscription with that id is still found exactly when
      it was before, with the e-mail and active flag it carries written, and `updatedAt` stamped
      when a field was written; nothing else changes. */
  lemma NewsletterUpdateThenRead(t: Tables, id: Id, p: NewsletterPatch, now: Timestamp)
    requires UpdateNewsletterRows(t, id, p, now).Ok?
    ensures var before, after := NewsletterById(t, id), NewsletterById(UpdateNewsletterRows(t, id, p, now).value, id);
            (after.Some? <==> before.Some?) &&
            (after.Some? ==>
               var b := before.value;
               var stamped := if Fields(NewsletterKeys(p)) != [] then now else b.updatedAt;
               after.value ==
               b.(email := GetOr(p.email, b.email),
                  isActive := GetOr(p.isActive, b.isActive),
                  updatedAt := stamped))
  {
    var row := RowById(t.newsletters, id, NewsletterKey);
    NewsletterRowAfterUpdate(t, id, p, now);
    if row.Some? {
      NewsletterUpdateWrites(row.value, p, now);
      NewsletterUpdateDecodes(row.value, p, now);
    }
  }

  /** The DELETE of `deleteNewsletter`: reports a removed row exactly when one had the id, and
      leaves none with it. */
  function DeleteNewsletterRows(t: Tables, id: Id): (r: (Tables, bool))
    ensures r.1 <==> NewsletterById(t, id).Some?
    ensures NewsletterById(r.0, id).None?
    ensures r.0.(newsletters := t.newsletters) == t
    ensures forall x :: x in r.0.newsletters <==> x in t.newsletters && NewsletterKey(x) != id
  {
    var kept := DeleteWhere(t.newsletters, id, NewsletterKey);
    (t.(newsletters := kept), |kept| < |t.newsletters|)
  }

  // ---------------------------------------------------------------- list reads

  function UsersOf(t: Tables): (r: seq<User>)
    ensures |r| == |t.users|
    ensures forall i :: 0 <= i < |r| ==> r[i] == UserFromRow(t.users[i])
  {
    Map(t.users, UserFromRow)
  }

  function CategoriesOfTables(t: Tables): (r: seq<Category>)
    ensures |r| == |t.categories|
    ensures forall i :: 0 <= i < |r| ==> r[i] == CategoryFromRow(t.categories[i])
  {
    Map(t.categories, CategoryFromRow)
  }

  function PostsOf(t: Tables): (r: seq<Post>)
    ensures |r| == |t.posts|
    ensures forall i :: 0 <= i < |r| ==> r[i] == PostFromRow(t.posts[i])
  {
    Map(t.posts, PostFromRow)
  }

  function ContactsOf(t: Tables): (r: seq<Contact>)
    ensures |r| == |t.contacts|
    ensures forall i :: 0 <= i < |r| ==> r[i] == ContactFromRow(t.contacts[i])
  {
    Map(t.contacts, ContactFromRow)
  }

  function NewslettersOf(t: Tables): (r: seq<Newsletter>)
    ensures |r| == |t.newsletters|
    ensures forall i :: 0 <= i < |r| ==> r[i] == NewsletterFromRow(t.newsletters[i])
  {
    Map(t.newsletters, NewsletterFromRow)
  }

  predicate StoredPublished(row: PostRow) { row.status == "published" }
  predicate IsPublished(p: Post) { p.status == PUBLISHED }

  /** `getPublishedPosts`: the rows selected by stored status 'published', decoded. */
  function PublishedPostsOf(t: Tables): (r: seq<Post>)
    ensures forall i :: 0 <= i < |r| ==> r[i].status == PUBLISHED && r[i].publishedAt.Some?
  {
    Map(Filter(t.posts, StoredPublished), PublishedPostFromRow)
  }

  /** A row is selected by stored status exactly when its decoded post is PUBLISHED, and then
      both mappings agree. */
  lemma PublishedRow(row: PostRow)
    ensures StoredPublished(row) <==> IsPublished(PostFromRow(row))
    ensures StoredPublished(row) ==> PublishedPostFromRow(row) == PostFromRow(row)
  {
  }

  /** The published posts are exactly the posts `getPosts` reports as PUBLISHED, in table order. */
  lemma {:induction false} PublishedPostsAreFilteredPosts(rows: seq<PostRow>)
    ensures Map(Filter(rows, StoredPublished), PublishedPostFromRow) ==
            Filter(Map(rows, PostFromRow), IsPublished)
  {
    if rows != [] {
      var posts := Map(rows, PostFromRow);
      assert posts[1..] == Map(rows[1..], PostFromRow);
      PublishedPostsAreFilteredPosts(rows[1..]);
      PublishedRow(rows[0]);
      var rest := Filter(rows[1..], StoredPublished);
      if StoredPublished(rows[0]) {
        assert Filter(rows, StoredPublished) == [rows[0]] + rest;
        MapConcat([rows[0]], rest, PublishedPostFromRow);
        assert Filter(posts, IsPublished) == [posts[0]] + Filter(posts[1..], IsPublished);
      } else {
        assert Filter(rows, StoredPublished) == rest;
        assert Filter(posts, IsPublished) == Filter(posts[1..], IsPublished);
      }
    }
  }

  predicate OnPost(postId: Id, row: CommentRow) { row.post_id == postId }

  /** `getCommentsByPostId`: the comments of one post, and all of them. */
  function CommentsOfPost(t: Tables, postId: Id): (r: seq<Comment>)
    ensures forall i :: 0 <= i < |r| ==> r[i].postId == postId
    ensures forall i :: 0 <= i < |t.comments| && t.comments[i].post_id == postId ==>
              CommentFromRow(t.comments[i]) in r
    ensures forall i :: 0 <= i < |r| ==>
              exists row :: row in t.comments && row.post_id == postId && r[i] == CommentFromRow(row)
  {
    var rows := Filter(t.comments, (row: CommentRow) => OnPost(postId, row));
    FilterMembers(t.comments, (row: CommentRow) => OnPost(postId, row));
    var r := Map(rows, CommentFromRow);
    assert forall j :: 0 <= j < |rows| ==> CommentFromRow(rows[j]) == r[j];
    assert forall j :: 0 <= j < |rows| ==> rows[j] in t.comments && rows[j].post_id == postId;
    r
  }

  // ---------------------------------------------------------------- migration

  /** One exported record, tagged with its kind. */
  datatype Record =
    | UserRecord(user: User)
    | CategoryRecord(category: Category)
    | PostRecord(post: Post)
    | CommentRecord(comment: Comment)
    | ContactRecord(contact: Contact)
    | NewsletterRecord(newsletter: Newsletter)

  /** The creates the migration issues, in its order: users, categories, posts, comments,
      contacts, newsletters, each kind in array order. */
  function MigrationRecords(data: Snapshot): (r: seq<Record>)
    ensures |r| == |data.users| + |data.categories| + |data.posts| + |data.comments| +
                   |data.contacts| + |data.newsletters|
    ensures forall i :: 0 <= i < |data.users| ==> r[i] == UserRecord(data.users[i])
    ensures forall i :: 0 <= i < |data.categories| ==>
              r[|data.users| + i] == CategoryRecord(data.categories[i])
    ensures forall i :: 0 <= i < |data.posts| ==>
              r[|data.users| + |data.categories| + i] == PostRecord(data.posts[i])
    ensures forall i :: 0 <= i < |data.comments| ==>
              r[|data.users| + |data.categories| + |data.posts| + i] == CommentRecord(data.comments[i])
    ensures forall i :: 0 <= i < |data.contacts| ==>
              r[|data.users| + |data.categories| + |data.posts| + |data.comments| + i] ==
              ContactRecord(data.contacts[i])
    ensures forall i :: 0 <= i < |data.newsletters| ==>
              r[|r| - |data.newsletters| + i] == NewsletterRecord(data.newsletters[i])
  {
    Map(data.users, (u: User) => UserRecord(u))
    + Map(data.categories, (c: Category) => CategoryRecord(c))
    + Map(data.posts, (p: Post) => PostRecord(p))
    + Map(data.comments, (c: Comment) => CommentRecord(c))
    + Map(data.contacts, (c: Contact) => ContactRecord(c))
    + Map(data.newsletters, (n: Newsletter) => NewsletterRecord(n))
  }

  /** The create one record turns into; the record's own id and timestamps are not used. */
  function InsertRecord(t: Tables, rec: Record, s: Stamp): (r: Result<Tables>)
    ensures r.Ok? ==> TotalRows(r.value) == TotalRows(t) + 1 && Extends(t, r.value)
  {
    match rec
    case UserRecord(u) => InsertUser(t, UserDraftOf(u), s)
    case CategoryRecord(c) => InsertCategory(t, CategoryDraftOf(c), s)
    case PostRecord(p) => InsertPost(t, PostDraftOf(p), s)
    case CommentRecord(c) => InsertComment(t, CommentDraftOf(c), s)
    case ContactRecord(c) => InsertContact(t, ContactDraftOf(c), s)
    case NewsletterRecord(n) => InsertNewsletter(t, NewsletterDraftOf(n), s)
  }

  /** Where the migration stands: the tables, how many records were inserted, and whether a
      create threw. */
  datatype Migration = Migration(tables: Tables, inserted: nat, failed: bool)

  /** The records from position `k` on inserted one after the other; the record at position
      `i` draws the stamp `stamps(i)`. The first create that throws ends the migration: the
      records inserted are a prefix, one row each, only appended, and it stops exactly at the
      first record whose create throws. */
  function Migrate(t: Tables, records: seq<Record>, k: nat, stamps: nat -> Stamp): (m: Migration)
    requires k <= |records|
    ensures k <= m.inserted <= |records|
    ensures m.failed <==> m.inserted < |records|
    ensures m.failed ==> InsertRecord(m.tables, records[m.inserted], stamps(m.inserted)).Err?
    ensures TotalRows(m.tables) == TotalRows(t) + (m.inserted - k)
    ensures Extends(t, m.tables)
    decreases |records| - k
  {
    if k == |records| then Migration(t, k, false)
    else match InsertRecord(t, records[k], stamps(k))
      case Err(_) => Migration(t, k, true)
      case Ok(next) => Migrate(next, records, k + 1, stamps)
  }

  /** An exported user has no password, so its create always throws: a migration with any
      user stops at its first record and inserts nothing. */
  lemma ExportedUsersNeverMigrate(t: Tables, data: Snapshot, stamps: nat -> Stamp)
    requires data.users != []
    ensures var m := Migrate(t, MigrationRecords(data), 0, stamps);
            m.failed && m.inserted == 0 && m.tables == t
  {
    var records := MigrationRecords(data);
    assert records[0] == UserRecord(data.users[0]);
    assert InsertRecord(t, records[0], stamps(0)).Err?;
  }

  // ---------------------------------------------------------------- operations on the connection
  // Each operation of the adapter as a function of the connection it finds: the connection it
  // leaves and what its promise settles to.

  /** Whether `connect` resolves true: only for a complete configuration and a ready server. */
  function ConnectSucceeds(c: Config, attempt: ConnectAttempt): (ok: bool)
    ensures ok ==> Complete(c)
  {
    Complete(c) && attempt.Opened?
  }

  /** The connection `connect` leaves: an incomplete configuration or an unreachable server keeps
      the one there was; any opened connection is kept, even when creating the schema then threw. */
  function AfterConnect(c: Config, attempt: ConnectAttempt, conn: Option<Tables>): (r: Option<Tables>)
    ensures !Complete(c) ==> r == conn
    ensures ConnectSucceeds(c, attempt) ==> r == Some(attempt.tables)
  {
    if Complete(c) && !attempt.Unreachable? then Some(attempt.tables) else conn
  }

  /** `createUser`: throws without a connection; otherwise the INSERT, then the input echoed. */
  function CreateUserOn(conn: Option<Tables>, d: UserDraft, s: Stamp): (r: (Option<Tables>, Result<User>))
    ensures conn.None? ==> r == (conn, Err(NoConnection))
    ensures conn.Some? ==> (r.1.Ok? <==> InsertUser(conn.value, d, s).Ok?)
    ensures r.1.Ok? ==> conn.Some? && r.1.value == CreatedUser(d, s) &&
                        r.0 == Some(InsertUser(conn.value, d, s).value)
    ensures r.1.Err? ==> r.0 == conn
  {
    if conn.None? then (conn, Err(NoConnection))
    else match InsertUser(conn.value, d, s)
      case Ok(t) => (Some(t), Ok(CreatedUser(d, s)))
      case Err(e) => (conn, Err(e))
  }

  /** `updateUser`: null without a connection; otherwise the UPDATE (skipped when no field is
      left), then the record read back by id. */
  function UpdateUserOn(conn: Option<Tables>, id: Id, p: UserPatch, now: Timestamp)
    : (r: (Option<Tables>, Result<Option<User>>))
    ensures conn.None? ==> r == (conn, Ok(None))
    ensures conn.Some? && Fields(UserKeys(p)) == [] ==> r == (conn, Ok(UserById(conn.value, id)))
    ensures conn.Some? && UpdateUserRows(conn.value, id, p, now).Ok? ==>
              var t := UpdateUserRows(conn.value, id, p, now).value;
              r == (Some(t), Ok(UserById(t, id)))
    ensures r.1.Ok? && r.1.value.Some? ==> r.1.value.value.id == id
    ensures r.1.Err? ==> r.0 == conn
  {
    if conn.None? then (conn, Ok(None))
    else match UpdateUserRows(conn.value, id, p, now)
      case Ok(t) => (Some(t), Ok(UserById(t, id)))
      case Err(e) => (conn, Err(e))
  }

  /** `deleteUser`: false without a connection; otherwise whether the DELETE removed a row. */
  function DeleteUserOn(conn: Option<Tables>, id: Id): (r: (Option<Tables>, bool))
    ensures conn.None? ==> r == (conn, false)
    ensures conn.Some? ==> r.0.Some? && (r.1 <==> UserById(conn.value, id).Some?) &&
                           UserById(r.0.value, id).None?
    ensures conn.Some? ==> r.0.Some? && r.0.value.(users := conn.value.users) == conn.value
    ensures conn.Some? ==>
              forall x :: x in r.0.value.users <==> x in conn.value.users && UserKey(x) != id
  {
    if conn.None? then (conn, false)
    else
      var (t, hit) := DeleteUserRows(conn.value, id);
      (Some(t), hit)
  }

  /** `createCategory`: throws without a connection; otherwise the INSERT, then the input echoed. */
  function CreateCategoryOn(conn: Option<Tables>, d: CategoryDraft, s: Stamp): (r: (Option<Tables>, Result<Category>))
    ensures conn.None? ==> r == (conn, Err(NoConnection))
    ensures conn.Some? ==> (r.1.Ok? <==> InsertCategory(conn.value, d, s).Ok?)
    ensures r.1.Ok? ==> conn.Some? && r.1.value == CreatedCategory(d, s) &&
                        r.0 == Some(InsertCategory(conn.value, d, s).value)
    ensures r.1.Err? ==> r.0 == conn
  {
    if conn.None? then (conn, Err(NoConnection))
    else match InsertCategory(conn.value, d, s)
      case Ok(t) => (Some(t), Ok(CreatedCategory(d, s)))
      case Err(e) => (conn, Err(e))
  }

  /** `updateCategory`: null without a connection; otherwise the UPDATE (skipped when no field is
      left), then the record read back by id. */
  function UpdateCategoryOn(conn: Option<Tables>, id: Id, p: CategoryPatch, now: Timestamp)
    : (r: (Option<Tables>, Result<Option<Category>>))
    ensures conn.None? ==> r == (conn, Ok(None))
    ensures conn.Some? && Fields(CategoryKeys(p)) == [] ==> r == (conn, Ok(CategoryById(conn.value, id)))
    ensures conn.Some? && UpdateCategoryRows(conn.value, id, p, now).Ok? ==>
              var t := UpdateCategoryRows(conn.value, id, p, now).value;
              r == (Some(t), Ok(CategoryById(t, id)))
    ensures r.1.Ok? && r.1.value.Some? ==> r.1.value.value.id == id
    ensures r.1.Err? ==> r.0 == conn
  {
    if conn.None? then (conn, Ok(None))
    else match UpdateCategoryRows(conn.value, id, p, now)
      case Ok(t) => (Some(t), Ok(CategoryById(t, id)))
      case Err(e) => (conn, Err(e))
  }

  /** `deleteCategory`: false without a connection; otherwise whether the DELETE removed a row. */
  function DeleteCategoryOn(conn: Option<Tables>, id: Id): (r: (Option<Tables>, bool))
    ensures conn.None? ==> r == (conn, false)
    ensures conn.Some? ==> r.0.Some? && (r.1 <==> CategoryById(conn.value, id).Some?) &&
                           CategoryById(r.0.value, id).None?
    ensures conn.Some? ==> r.0.Some? && r.0.value.(categories := conn.value.categories) == conn.value
    ensures conn.Some? ==>
              forall x :: x in r.0.value.categories <==> x in conn.value.categories && CategoryKey(x) != id
  {
    if conn.None? then (conn, false)
    else
      var (t, hit) := DeleteCategoryRows(conn.value, id);
      (Some(t), hit)
  }

  /** `createPost`: throws without a connection; otherwise the INSERT, then the input echoed. */
  function CreatePostOn(conn: Option<Tables>, d: PostDraft, s: Stamp): (r: (Option<Tables>, Result<Post>))
    ensures conn.None? ==> r == (conn, Err(NoConnection))
    ensures conn.Some? ==> (r.1.Ok? <==> InsertPost(conn.value, d, s).Ok?)
    ensures r.1.Ok? ==> conn.Some? && r.1.value == CreatedPost(d, s) &&
                        r.0 == Some(InsertPost(conn.value, d, s).value)
    ensures r.1.Err? ==> r.0 == conn
  {
    if conn.None? then (conn, Err(NoConnection))
    else match InsertPost(conn.value, d, s)
      case Ok(t) => (Some(t), Ok(CreatedPost(d, s)))
      case Err(e) => (conn, Err(e))
  }

  /** `updatePost`: null without a connection; otherwise the UPDATE (skipped when no field is
      left), then the record read back by id. */
  function UpdatePostOn(conn: Option<Tables>, id: Id, p: PostPatch, now: Timestamp)
    : (r: (Option<Tables>, Result<Option<Post>>))
    ensures conn.None? ==> r == (conn, Ok(None))
    ensures conn.Some? && Fields(PostKeys(p)) == [] ==> r == (conn, Ok(PostById(conn.value, id)))
    ensures conn.Some? && UpdatePostRows(conn.value, id, p, now).Ok? ==>
              var t := UpdatePostRows(conn.value, id, p, now).value;
              r == (Some(t), Ok(PostById(t, id)))
    ensures r.1.Ok? && r.1.value.Some? ==> r.1.value.value.id == id
    ensures r.1.Err? ==> r.0 == conn
  {
    if conn.None? then (conn, Ok(None))
    else match UpdatePostRows(conn.value, id, p, now)
      case Ok(t) => (Some(t), Ok(PostById(t, id)))
      case Err(e) => (conn, Err(e))
  }

  /** `deletePost`: false without a connection; otherwise whether the DELETE removed a row. */
  function DeletePostOn(conn: Option<Tables>, id: Id): (r: (Option<Tables>, bool))
    ensures conn.None? ==> r == (conn, false)
    ensures conn.Some? ==> r.0.Some? && (r.1 <==> PostById(conn.value, id).Some?) &&
                           PostById(r.0.value, id).None?
    ensures conn.Some? ==> r.0.Some? && r.0.value.(posts := conn.value.posts) == conn.value
    ensures conn.Some? ==>
              forall x :: x in r.0.value.posts <==> x in conn.value.posts && PostKey(x) != id
  {
    if conn.None? then (conn, false)
    else
      var (t, hit) := DeletePostRows(conn.value, id);
      (Some(t), hit)
  }

  /** `createComment`: throws without a connection; otherwise the INSERT, then the input echoed. */
  function CreateCommentOn(conn: Option<Tables>, d: CommentDraft, s: Stamp): (r: (Option<Tables>, Result<Comment>))
    ensures conn.None? ==> r == (conn, Err(NoConnection))
    ensures conn.Some? ==> (r.1.Ok? <==> InsertComment(conn.value, d, s).Ok?)
    ensures r.1.Ok? ==> conn.Some? && r.1.value == CreatedComment(d, s) &&
                        r.0 == Some(InsertComment(conn.value, d, s).value)
    ensures r.1.Err? ==> r.0 == conn
  {
    if conn.None? then (conn, Err(NoConnection))
    else match InsertComment(conn.value, d, s)
      case Ok(t) => (Some(t), Ok(CreatedComment(d, s)))
      case Err(e) => (conn, Err(e))
  }

  /** `updateComment`: null without a connection; otherwise the UPDATE (skipped when no field is
      left), then the record read back by id. */
  function UpdateCommentOn(conn: Option<Tables>, id: Id, p: CommentPatch, now: Timestamp)
    : (r: (Option<Tables>, Result<Option<Comment>>))
    ensures conn.None? ==> r == (conn, Ok(None))
    ensures conn.Some? && Fields(CommentKeys(p)) == [] ==> r == (conn, Ok(CommentById(conn.value, id)))
    ensures conn.Some? && UpdateCommentRows(conn.value, id, p, now).Ok? ==>
              var t := UpdateCommentRows(conn.value, id, p, now).value;
              r == (Some(t), Ok(CommentById(t, id)))
    ensures r.1.Ok? && r.1.value.Some? ==> r.1.value.value.id == id
    ensures r.1.Err? ==> r.0 == conn
  {
    if conn.None? then (conn, Ok(None))
    else match UpdateCommentRows(conn.value, id, p, now)
      case Ok(t) => (Some(t), Ok(CommentById(t, id)))
      case Err(e) => (conn, Err(e))
  }

  /** `deleteComment`: false without a connection; otherwise whether the DELETE removed a row. */
  function DeleteCommentOn(conn: Option<Tables>, id: Id): (r: (Option<Tables>, bool))
    ensures conn.None? ==> r == (conn, false)
    ensures conn.Some? ==> r.0.Some? && (r.1 <==> CommentById(conn.value, id).Some?) &&
                           CommentById(r.0.value, id).None?
    ensures conn.Some? ==> r.0.Some? && r.0.value.(comments := conn.value.comments) == conn.value
    ensures conn.Some? ==>
              forall x :: x in r.0.value.comments <==> x in conn.value.comments && CommentKey(x) != id
  {
    if conn.None? then (conn, false)
    else
      var (t, hit) := DeleteCommentRows(conn.value, id);
      (Some(t), hit)
  }

  /** `createContact`: throws without a connection; otherwise the INSERT, then the input echoed. */
  function CreateContactOn(conn: Option<Tables>, d: ContactDraft, s: Stamp): (r: (Option<Tables>, Result<Contact>))
    ensures conn.None? ==> r == (conn, Err(NoConnection))
    ensures conn.Some? ==> (r.1.Ok? <==> InsertContact(conn.value, d, s).Ok?)
    ensures r.1.Ok? ==> conn.Some? && r.1.value == CreatedContact(d, s) &&
                        r.0 == Some(InsertContact(conn.value, d, s).value)
    ensures r.1.Err? ==> r.0 == conn
  {
    if conn.None? then (conn, Err(NoConnection))
    else match InsertContact(conn.value, d, s)
      case Ok(t) => (Some(t), Ok(CreatedContact(d, s)))
      case Err(e) => (conn, Err(e))
  }

  /** `updateContact`: null without a connection; otherwise the UPDATE (skipped when no field is
      left), then the record read back by id. */
  function UpdateContactOn(conn: Option<Tables>, id: Id, p: ContactPatch, now: Timestamp)
    : (r: (Option<Tables>, Result<Option<Contact>>))
    ensures conn.None? ==> r == (conn, Ok(None))
    ensures conn.Some? && Fields(ContactKeys(p)) == [] ==> r == (conn, Ok(ContactById(conn.value, id)))
    ensures conn.Some? && UpdateContactRows(conn.value, id, p, now).Ok? ==>
              var t := UpdateContactRows(conn.value, id, p, now).value;
              r == (Some(t), Ok(ContactById(t, id)))
    ensures r.1.Ok? && r.1.value.Some? ==> r.1.value.value.id == id
    ensures r.1.Err? ==> r.0 == conn
  {
    if conn.None? then (conn, Ok(None))
    else match UpdateContactRows(conn.value, id, p, now)
      case Ok(t) => (Some(t), Ok(ContactById(t, id)))
      case Err(e) => (conn, Err(e))
  }

  /** `deleteContact`: false without a connection; otherwise whether the DELETE removed a row. */
  function DeleteContactOn(conn: Option<Tables>, id: Id): (r: (Option<Tables>, bool))
    ensures conn.None? ==> r == (conn, false)
    ensures conn.Some? ==> r.0.Some? && (r.1 <==> ContactById(conn.value, id).Some?) &&
                           ContactById(r.0.value, id).None?
    ensures conn.Some? ==> r.0.Some? && r.0.value.(contacts := conn.value.contacts) == conn.value
    ensures conn.Some? ==>
              forall x :: x in r.0.value.contacts <==> x in conn.value.contacts && ContactKey(x) != id
  {
    if conn.None? then (conn, false)
    else
      var (t, hit) := DeleteContactRows(conn.value, id);
      (Some(t), hit)
  }

  /** `createNewsletter`: throws without a connection; otherwise the INSERT, then the input echoed. */
  function CreateNewsletterOn(conn: Option<Tables>, d: NewsletterDraft, s: Stamp): (r: (Option<Tables>, Result<Newsletter>))
    ensures conn.None? ==> r == (conn, Err(NoConnection))
    ensures conn.Some? ==> (r.1.Ok? <==> InsertNewsletter(conn.value, d, s).Ok?)
    ensures r.1.Ok? ==> conn.Some? && r.1.value == CreatedNewsletter(d, s) &&
                        r.0 == Some(InsertNewsletter(conn.value, d, s).value)
    ensures r.1.Err? ==> r.0 == conn
  {
    if conn.None? then (conn, Err(NoConnection))
    else match InsertNewsletter(conn.value, d, s)
      case Ok(t) => (Some(t), Ok(CreatedNewsletter(d, s)))
      case Err(e) => (conn, Err(e))
  }

  /** `updateNewsletter`: null without a connection; otherwise the UPDATE (skipped when no field is
      left), then the record read back by id. */
  function UpdateNewsletterOn(conn: Option<Tables>, id: Id, p: NewsletterPatch, now: Timestamp)
    : (r: (Option<Tables>, Result<Option<Newsletter>>))
    ensures conn.None? ==> r == (conn, Ok(None))
    ensures conn.Some? && Fields(NewsletterKeys(p)) == [] ==> r == (conn, Ok(NewsletterById(conn.value, id)))
    ensures conn.Some? && UpdateNewsletterRows(conn.value, id, p, now).Ok? ==>
              var t := UpdateNewsletterRows(conn.value, id, p, now).value;
              r == (Some(t), Ok(NewsletterById(t, id)))
    ensures r.1.Ok? && r.1.value.Some? ==> r.1.value.value.id == id
    ensures r.1.Err? ==> r.0 == conn
  {
    if conn.None? then (conn, Ok(None))
    else match UpdateNewsletterRows(conn.value, id, p, now)
      case Ok(t) => (Some(t), Ok(NewsletterById(t, id)))
      case Err(e) => (conn, Err(e))
  }

  /** `deleteNewsletter`: false without a connection; otherwise whether the DELETE removed a row. */
  function DeleteNewsletterOn(conn: Option<Tables>, id: Id): (r: (Option<Tables>, bool))
    ensures conn.None? ==> r == (conn, false)
    ensures conn.Some? ==> r.0.Some? && (r.1 <==> NewsletterById(conn.value, id).Some?) &&
                           NewsletterById(r.0.value, id).None?
    ensures conn.Some? ==> r.0.Some? && r.0.value.(newsletters := conn.value.newsletters) == conn.value
    ensures conn.Some? ==>
              forall x :: x in r.0.value.newsletters <==> x in conn.value.newsletters && NewsletterKey(x) != id
  {
    if conn.None? then (conn, false)
    else
      var (t, hit) := DeleteNewsletterRows(conn.value, id);
      (Some(t), hit)
  }

  // ---------------------------------------------------------------- the adapter object

  class MySQLManager {
    const config: Config
    /** The open connection, seen as the tables it reaches; `None` is `this.connection === null`. */
    var connection: Option<Tables>

    constructor (env: map<string, string>)
      ensures config == ConfigFrom(env) && connection.None?
    {
      config := ConfigFrom(env);
      connection := None;
    }

    /** `connect`: resolves as `ConnectSucceeds` says and leaves the connection `AfterConnect`
        gives. */
    method Connect(attempt: ConnectAttempt) returns (ok: bool)
      modifies this
      ensures ok == ConnectSucceeds(config, attempt)
      ensures connection == AfterConnect(config, attempt, old(connection))
    {
      if !Complete(config) {
        return false;
      }
      match attempt
      case Unreachable =>
        ok := false;
      case SchemaFailed(tables) =>
        connection := Some(tables);
        ok := false;
      case Opened(tables) =>
        connection := Some(tables);
        ok := true;
    }

    method Disconnect()
      modifies this
      ensures connection.None?
    {
      connection := None;
    }

    /** `isHealthy`: a connection that answers the probe query. */
    function IsHealthy(probeAnswers: bool): (healthy: bool)
      reads this
      ensures healthy ==> connection.Some?
      ensures connection.Some? ==> healthy == probeAnswers
    {
      connection.Some? && probeAnswers
    }

    function GetUsers(): (r: seq<User>)
      reads this
      ensures connection.None? ==> r == []
      ensures connection.Some? ==> r == UsersOf(connection.value)
    {
      if connection.Some? then UsersOf(connection.value) else []
    }

    function GetUserById(id: Id): (r: Option<User>)
      reads this
      ensures connection.None? ==> r.None?
      ensures connection.Some? ==> r == UserById(connection.value, id)
    {
      if connection.Some? then UserById(connection.value, id) else None
    }

    function GetCategories(): (r: seq<Category>)
      reads this
      ensures connection.None? ==> r == []
      ensures connection.Some? ==> r == CategoriesOfTables(connection.value)
    {
      if connection.Some? then CategoriesOfTables(connection.value) else []
    }

    function GetCategoryById(id: Id): (r: Option<Category>)
      reads this
      ensures connection.None? ==> r.None?
      ensures connection.Some? ==> r == CategoryById(connection.value, id)
    {
      if connection.Some? then CategoryById(connection.value, id) else None
    }

    function GetPosts(): (r: seq<Post>)
      reads this
      ensures connection.None? ==> r == []
      ensures connection.Some? ==> r == PostsOf(connection.value)
    {
      if connection.Some? then PostsOf(connection.value) else []
    }

    function GetPublishedPosts(): (r: seq<Post>)
      reads this
      ensures connection.None? ==> r == []
      ensures connection.Some? ==> r == Filter(GetPosts(), IsPublished)
    {
      if connection.Some? then
        PublishedPostsAreFilteredPosts(connection.value.posts);
        PublishedPostsOf(connection.value)
      else []
    }

    function GetPostById(id: Id): (r: Option<Post>)
      reads this
      ensures connection.None? ==> r.None?
      ensures connection.Some? ==> r == PostById(connection.value, id)
    {
      if connection.Some? then PostById(connection.value, id) else None
    }

    function GetCommentsByPostId(postId: Id): (r: seq<Comment>)
      reads this
      ensures connection.None? ==> r == []
      ensures connection.Some? ==> r == CommentsOfPost(connection.value, postId)
    {
      if connection.Some? then CommentsOfPost(connection.value, postId) else []
    }

    function GetCommentById(id: Id): (r: Option<Comment>)
      reads this
      ensures connection.None? ==> r.None?
      ensures connection.Some? ==> r == CommentById(connection.value, id)
    {
      if connection.Some? then CommentById(connection.value, id) else None
    }

    function GetContacts(): (r: seq<Contact>)
      reads this
      ensures connection.None? ==> r == []
      ensures connection.Some? ==> r == ContactsOf(connection.value)
    {
      if connection.Some? then ContactsOf(connection.value) else []
    }

    function GetContactById(id: Id): (r: Option<Contact>)
      reads this
      ensures connection.None? ==> r.None?
      ensures connection.Some? ==> r == ContactById(connection.value, id)
    {
      if connection.Some? then ContactById(connection.value, id) else None
    }

    function GetNewsletters(): (r: seq<Newsletter>)
      reads this
      ensures connection.None? ==> r == []
      ensures connection.Some? ==> r == NewslettersOf(connection.value)
    {
      if connection.Some? then NewslettersOf(connection.value) else []
    }

    function GetNewsletterById(id: Id): (r: Option<Newsletter>)
      reads this
      ensures connection.None? ==> r.None?
      ensures connection.Some? ==> r == NewsletterById(connection.value, id)
    {
      if connection.Some? then NewsletterById(connection.value, id) else None
    }

    method CreateUser(d: UserDraft, s: Stamp) returns (r: Result<User>)
      modifies this
      ensures (connection, r) == CreateUserOn(old(connection), d, s)
    {
      var (next, result) := CreateUserOn(connection, d, s);
      connection, r := next, result;
    }

    method UpdateUser(id: Id, p: UserPatch, now: Timestamp) returns (r: Result<Option<User>>)
      modifies this
      ensures (connection, r) == UpdateUserOn(old(connection), id, p, now)
    {
      var (next, result) := UpdateUserOn(connection, id, p, now);
      connection, r := next, result;
    }

    method DeleteUser(id: Id) returns (removed: bool)
      modifies this
      ensures (connection, removed) == DeleteUserOn(old(connection), id)
    {
      var (next, result) := DeleteUserOn(connection, id);
      connection, removed := next, result;
    }

    method CreateCategory(d: CategoryDraft, s: Stamp) returns (r: Result<Category>)
      modifies this
      ensures (connection, r) == CreateCategoryOn(old(connection), d, s)
    {
      var (next, result) := CreateCategoryOn(connection, d, s);
      connection, r := next, result;
    }

    method UpdateCategory(id: Id, p: CategoryPatch, now: Timestamp) returns (r: Result<Option<Category>>)
      modifies this
      ensures (connection, r) == UpdateCategoryOn(old(connection), id, p, now)
    {
      var (next, result) := UpdateCategoryOn(connection, id, p, now);
      connection, r := next, result;
    }

    method DeleteCategory(id: Id) returns (removed: bool)
      modifies this
      ensures (connection, removed) == DeleteCategoryOn(old(connection), id)
    {
      var (next, result) := DeleteCategoryOn(connection, id);
      connection, removed := next, result;
    }

    method CreatePost(d: PostDraft, s: Stamp) returns (r: Result<Post>)
      modifies this
      ensures (connection, r) == CreatePostOn(old(connection), d, s)
    {
      var (next, result) := CreatePostOn(connection, d, s);
      connection, r := next, result;
    }

    method UpdatePost(id: Id, p: PostPatch, now: Timestamp) returns (r: Result<Option<Post>>)
      modifies this
      ensures (connection, r) == UpdatePostOn(old(connection), id, p, now)
    {
      var (next, result) := UpdatePostOn(connection, id, p, now);
      connection, r := next, result;
    }

    method DeletePost(id: Id) returns (removed: bool)
      modifies this
      ensures (connection, removed) == DeletePostOn(old(connection), id)
    {
      var (next, result) := DeletePostOn(connection, id);
      connection, removed := next, result;
    }

    method CreateComment(d: CommentDraft, s: Stamp) returns (r: Result<Comment>)
      modifies this
      ensures (connection, r) == CreateCommentOn(old(connection), d, s)
    {
      var (next, result) := CreateCommentOn(connection, d, s);
      connection, r := next, result;
    }

    method UpdateComment(id: Id, p: CommentPatch, now: Timestamp) returns (r: Result<Option<Comment>>)
      modifies this
      ensures (connection, r) == UpdateCommentOn(old(connection), id, p, now)
    {
      var (next, result) := UpdateCommentOn(connection, id, p, now);
      connection, r := next, result;
    }

    method DeleteComment(id: Id) returns (removed: bool)
      modifies this
      ensures (connection, removed) == DeleteCommentOn(old(connection), id)
    {
      var (next, result) := DeleteCommentOn(connection, id);
      connection, removed := next, result;
    }

    method CreateContact(d: ContactDraft, s: Stamp) returns (r: Result<Contact>)
      modifies this
      ensures (connection, r) == CreateContactOn(old(connection), d, s)
    {
      var (next, result) := CreateContactOn(connection, d, s);
      connection, r := next, result;
    }

    method UpdateContact(id: Id, p: ContactPatch, now: Timestamp) returns (r: Result<Option<Contact>>)
      modifies this
      ensures (connection, r) == UpdateContactOn(old(connection), id, p, now)
    {
      var (next, result) := UpdateContactOn(connection, id, p, now);
      connection, r := next, result;
    }

    method DeleteContact(id: Id) returns (removed: bool)
      modifies this
      ensures (connection, removed) == DeleteContactOn(old(connection), id)
    {
      var (next, result) := DeleteContactOn(connection, id);
      connection, removed := next, result;
    }

    method CreateNewsletter(d: NewsletterDraft, s: Stamp) returns (r: Result<Newsletter>)
      modifies this
      ensures (connection, r) == CreateNewsletterOn(old(connection), d, s)
    {
      var (next, result) := CreateNewsletterOn(connection, d, s);
      connection, r := next, result;
    }

    method UpdateNewsletter(id: Id, p: NewsletterPatch, now: Timestamp) returns (r: Result<Option<Newsletter>>)
      modifies this
      ensures (connection, r) == UpdateNewsletterOn(old(connection), id, p, now)
    {
      var (next, result) := UpdateNewsletterOn(connection, id, p, now);
      connection, r := next, result;
    }

    method DeleteNewsletter(id: Id) returns (removed: bool)
      modifies this
      ensures (connection, removed) == DeleteNewsletterOn(old(connection), id)
    {
      var (next, result) := DeleteNewsletterOn(connection, id);
      connection, removed := next, result;
    }

    /** One create of the migration, chosen by the record's kind; true when it did not throw. */
    method CreateRecord(rec: Record, s: Stamp) returns (ok: bool)
      requires connection.Some?
      modifies this
      ensures ok <==> InsertRecord(old(connection).value, rec, s).Ok?
      ensures connection == if ok then Some(InsertRecord(old(connection).value, rec, s).value)
                            else old(connection)
    {
      match rec
      case UserRecord(u) =>
        var r := CreateUser(UserDraftOf(u), s);
        ok := r.Ok?;
      case CategoryRecord(c) =>
        var r := CreateCategory(CategoryDraftOf(c), s);
        ok := r.Ok?;
      case PostRecord(p) =>
        var r := CreatePost(PostDraftOf(p), s);
        ok := r.Ok?;
      case CommentRecord(c) =>
        var r := CreateComment(CommentDraftOf(c), s);
        ok := r.Ok?;
      case ContactRecord(c) =>
        var r := CreateContact(ContactDraftOf(c), s);
        ok := r.Ok?;
      case NewsletterRecord(n) =>
        var r := CreateNewsletter(NewsletterDraftOf(n), s);
        ok := r.Ok?;
    }

    /** `migrateFromLocalStorage`: nothing without a connection; otherwise one create per
        exported record, kind by kind, inside a single try, so the first create that throws
        ends the whole migration with the rows inserted so far kept. The six loops of the
        source run over consecutive stretches of `MigrationRecords(data)`; here they are one
        loop over that sequence. The source only logs whether every record arrived; the model
        also reports it, as `completed`. */
    method MigrateFromLocalStorage(data: Snapshot, stamps: nat -> Stamp) returns (completed: bool)
      modifies this
      ensures old(connection).None? ==> connection == old(connection) && !completed
      ensures old(connection).Some? ==>
                var m := Migrate(old(connection).value, MigrationRecords(data), 0, stamps);
                connection == Some(m.tables) && completed == !m.failed
    {
      completed := false;
      if connection.None? {
        return;
      }
      completed := CreateAll(MigrationRecords(data), stamps);
    }

    /** The creates of the migration, one per record in order, until the first that throws;
        true when none did. */
    method CreateAll(records: seq<Record>, stamps: nat -> Stamp) returns (completed: bool)
      requires connection.Some?
      modifies this
      ensures var m := Migrate(old(connection).value, records, 0, stamps);
              connection == Some(m.tables) && completed == !m.failed
    {
      ghost var start := connection.value;
      var i := 0;
      while i < |records|
        invariant i <= |records|
        invariant connection.Some?
        invariant Migrate(connection.value, records, i, stamps) == Migrate(start, records, 0, stamps)
        decreases |records| - i
      {
        ghost var before := connection.value;
        var ok := CreateRecord(records[i], stamps(i));
        if !ok {
          assert Migrate(before, records, i, stamps) == Migration(before, i, true);
          return false;
        }
        i := i + 1;
      }
      assert !Migrate(connection.value, records, i, stamps).failed;
      completed := true;
    }
  }
}

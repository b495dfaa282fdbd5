/** The unified facade of src/lib/database.ts: a two-flag state machine that connects once,
    migrates the fallback store's records into the relational store when there are any, and
    then sends every call to one of the two stores. */
module Database {
  import opened Wrappers
  import opened Entities
  import opened Lists
  import MySQL
  import Rows
  import Fallback

  /** What the facade's behaviour depends on: its two flags, the relational connection and the
      fallback store's collections. */
  datatype FacadeState = FacadeState(
    initialized: bool, useMySQL: bool, connection: Option<MySQL.Tables>, local: Snapshot)

  /** The intended test for records worth migrating: at least one user, post or category. */
  predicate HasLocalData(local: Snapshot) {
    |local.users| > 0 || |local.posts| > 0 || |local.categories| > 0
  }

  /** A promise that has not been awaited, with the value it will resolve to. */
  datatype Unawaited<T> = Unawaited(resolvesTo: T)

  /** `p.length > 0` for a promise `p` that was not awaited: a Promise has no `length`
      property, `undefined > 0` is false, and so the test is false whatever `p` resolves to. */
  function LengthPositive<T>(p: Unawaited<seq<T>>): bool {
    false
  }

  /** The test src/lib/database.ts:20-22 performs: `.length > 0` on each unawaited call. It is
      false even when the fallback store holds users, posts or categories. */
  function HasLocalDataAsWritten(local: Snapshot): (r: bool)
    ensures !r
    ensures HasLocalData(local) ==> r != HasLocalData(local)
  {
    LengthPositive(Unawaited(local.users)) || LengthPositive(Unawaited(local.posts)) ||
    LengthPositive(Unawaited(local.categories))
  }

  /** The first `initialize` as written, with the test for local records as a parameter:
      connect, and when connected and the test holds, migrate the exported records and clear
      the fallback store. The migration catches the first create that throws, so the store is
      cleared whether or not every record arrived. Every later call changes nothing. */
  function InitializeWith(st: FacadeState, config: MySQL.Config, attempt: MySQL.ConnectAttempt,
                          stamps: nat -> Stamp, hasLocal: Snapshot -> bool): (r: FacadeState)
    ensures r.initialized
    ensures st.initialized ==> r == st
    ensures !st.initialized ==> r.useMySQL == MySQL.ConnectSucceeds(config, attempt)
    ensures !st.initialized && r.useMySQL && hasLocal(st.local) ==>
              r.local == EmptySnapshot &&
              r.connection == Some(MySQL.Migrate(MySQL.AfterConnect(config, attempt, st.connection).value,
                                                 MySQL.MigrationRecords(st.local), 0, stamps).tables)
    ensures !(!st.initialized && r.useMySQL && hasLocal(st.local)) ==>
              r.local == st.local &&
              r.connection == if st.initialized then st.connection
                              else MySQL.AfterConnect(config, attempt, st.connection)
  {
    if st.initialized then st
    else
      var ok := MySQL.ConnectSucceeds(config, attempt);
      var conn := MySQL.AfterConnect(config, attempt, st.connection);
      if ok && hasLocal(st.local) then
        var migrated := MySQL.Migrate(conn.value, MySQL.MigrationRecords(st.local), 0, stamps);
        FacadeState(true, true, Some(migrated.tables), EmptySnapshot)
      else FacadeState(true, ok, conn, st.local)
  }

  /** `initialize` as written: it never migrates and never clears the fallback store, even when
      that store holds users, posts or categories. */
  lemma InitializeAsWrittenNeverMigrates(st: FacadeState, config: MySQL.Config,
                                         attempt: MySQL.ConnectAttempt, stamps: nat -> Stamp)
    ensures var r := InitializeWith(st, config, attempt, stamps, HasLocalDataAsWritten);
            r.local == st.local &&
            (!st.initialized ==> r.connection == MySQL.AfterConnect(config, attempt, st.connection))
  {
  }

  /** A concrete input on which the written test and the awaited one disagree: a connected
      first `initialize` with one local user migrates under the awaited test and not as written. */
  lemma AsWrittenSkipsMigration(u: User, config: MySQL.Config, tables: MySQL.Tables, stamps: nat -> Stamp)
    requires MySQL.Complete(config)
    ensures var st := FacadeState(false, false, None, EmptySnapshot.(users := [u]));
            InitializeWith(st, config, MySQL.Opened(tables), stamps, HasLocalDataAsWritten).local == st.local &&
            InitializeWith(st, config, MySQL.Opened(tables), stamps, HasLocalData).local == EmptySnapshot
  {
  }

  /** With the test awaited but the store cleared whatever the migration achieved, a connected
      first `initialize` with one local user loses it: the user's create throws, nothing
      reaches the relational store, and the fallback store is emptied. */
  lemma ClearingAfterFailedMigrationLosesUser(u: User, config: MySQL.Config, tables: MySQL.Tables,
                                              stamps: nat -> Stamp)
    requires MySQL.Complete(config)
    ensures var st := FacadeState(false, false, None, EmptySnapshot.(users := [u]));
            var r := InitializeWith(st, config, MySQL.Opened(tables), stamps, HasLocalData);
            r.local == EmptySnapshot && r.connection == Some(tables)
  {
    var local := EmptySnapshot.(users := [u]);
    MySQL.ExportedUsersNeverMigrate(tables, local, stamps);
  }

  /** `initialize` with the awaited test, clearing the fallback store only after a migration
      that inserted every record. It runs once: an initialized state is left alone. The first
      call sets `useMySQL` to what `connect` resolved to, and migrates exactly when that is
      true and the store has a user, post or category. */
  function InitializeStep(st: FacadeState, config: MySQL.Config, attempt: MySQL.ConnectAttempt,
                      stamps: nat -> Stamp): (r: FacadeState)
    ensures r.initialized
    ensures st.initialized ==> r == st
    ensures !st.initialized ==> r.useMySQL == MySQL.ConnectSucceeds(config, attempt)
    ensures !st.initialized && r.useMySQL && HasLocalData(st.local) ==>
              var m := MySQL.Migrate(MySQL.AfterConnect(config, attempt, st.connection).value,
                                     MySQL.MigrationRecords(st.local), 0, stamps);
              r.connection == Some(m.tables) &&
              r.local == if m.failed then st.local else EmptySnapshot
    ensures !(!st.initialized && r.useMySQL && HasLocalData(st.local)) ==>
              r.local == st.local &&
              r.connection == if st.initialized then st.connection
                              else MySQL.AfterConnect(config, attempt, st.connection)
  {
    if st.initialized then st
    else
      var ok := MySQL.ConnectSucceeds(config, attempt);
      var conn := MySQL.AfterConnect(config, attempt, st.connection);
      if ok && HasLocalData(st.local) then
        var m := MySQL.Migrate(conn.value, MySQL.MigrationRecords(st.local), 0, stamps);
        FacadeState(true, true, Some(m.tables), if m.failed then st.local else EmptySnapshot)
      else FacadeState(true, ok, conn, st.local)
  }

  /** No record is lost: when `initialize` empties a non-empty fallback store, every one of
      its records was inserted into the relational store, one row each. */
  lemma InitializeLosesNoRecord(st: FacadeState, config: MySQL.Config, attempt: MySQL.ConnectAttempt,
                                stamps: nat -> Stamp)
    requires !st.initialized && HasLocalData(st.local)
    ensures var r := InitializeStep(st, config, attempt, stamps);
            r.local == EmptySnapshot ==>
              var records := MySQL.MigrationRecords(st.local);
              r.connection.Some? &&
              MySQL.TotalRows(r.connection.value) ==
                MySQL.TotalRows(MySQL.AfterConnect(config, attempt, st.connection).value) + |records|
  {
  }

  /** A second `initialize` is a no-op. */
  lemma InitializeIdempotent(st: FacadeState, config: MySQL.Config, attempt: MySQL.ConnectAttempt,
                             stamps: nat -> Stamp)
    ensures var once := InitializeStep(st, config, attempt, stamps);
            InitializeStep(once, config, attempt, stamps) == once
  {
  }

  /** Contacts, comments and newsletters alone never start a migration. */
  lemma OtherRecordsDoNotMigrate(st: FacadeState, config: MySQL.Config, attempt: MySQL.ConnectAttempt,
                                 stamps: nat -> Stamp)
    requires |st.local.users| == 0 && |st.local.posts| == 0 && |st.local.categories| == 0
    ensures InitializeStep(st, config, attempt, stamps).local == st.local
  {
  }

  datatype StoreKind = MySQLStore | LocalStorage

  /** What `getStatus` reports. */
  datatype Status = Status(kind: StoreKind, connected: bool, healthy: bool)

  /** The record `exportData` serialises in relational mode: comments are always empty. */
  function RelationalExport(t: Option<MySQL.Tables>): (s: Snapshot)
    ensures s.comments == []
  {
    if t.None? then EmptySnapshot
    else Snapshot(MySQL.UsersOf(t.value), MySQL.PostsOf(t.value), MySQL.CategoriesOfTables(t.value), [],
                  MySQL.ContactsOf(t.value), MySQL.NewslettersOf(t.value))
  }

  predicate InCategory(categoryId: Id, p: Post) { categoryId in p.categories }
  predicate ByAuthor(authorId: Id, p: Post) { p.authorId == authorId }

  // ---------------------------------------------------------------- derived lookups

  function UserEmailOf(u: User): string { u.email }
  function NewsletterEmailOf(n: Newsletter): string { n.email }

  /** `users.find(user => user.email === email) || null`: the first user whose email matches, or
      null when none does. */
  function UserWithEmail(users: seq<User>, email: string): (r: Option<User>)
    ensures r.None? <==> forall i :: 0 <= i < |users| ==> users[i].email != email
    ensures r.Some? ==> exists k :: 0 <= k < |users| && users[k] == r.value && r.value.email == email &&
                          forall j :: 0 <= j < k ==> users[j].email != email
  {
    var p := HasKey(UserEmailOf, email);
    var r := Find(users, p);
    assert forall i :: 0 <= i < |users| ==> (p(users[i]) <==> UserEmailOf(users[i]) == email);
    assert r.Some? ==> users[FirstIndex(users, p)] == r.value;
    r
  }

  /** `posts.find(post => post.id === id) || null`: the first post whose id matches, or null when
      none does. */
  function PostWithId(posts: seq<Post>, id: Id): (r: Option<Post>)
    ensures r.None? <==> forall i :: 0 <= i < |posts| ==> posts[i].id != id
    ensures r.Some? ==> exists k :: 0 <= k < |posts| && posts[k] == r.value && r.value.id == id &&
                          forall j :: 0 <= j < k ==> posts[j].id != id
  {
    var p := HasKey(Fallback.PostId, id);
    var r := Find(posts, p);
    assert forall i :: 0 <= i < |posts| ==> (p(posts[i]) <==> Fallback.PostId(posts[i]) == id);
    assert r.Some? ==> posts[FirstIndex(posts, p)] == r.value;
    r
  }

  /** `posts.find(post => post.slug === slug) || null`: the first post whose slug matches, or null
      when none does. */
  function PostWithSlug(posts: seq<Post>, slug: string): (r: Option<Post>)
    ensures r.None? <==> forall i :: 0 <= i < |posts| ==> posts[i].slug != slug
    ensures r.Some? ==> exists k :: 0 <= k < |posts| && posts[k] == r.value && r.value.slug == slug &&
                          forall j :: 0 <= j < k ==> posts[j].slug != slug
  {
    var p := HasKey(Fallback.PostSlug, slug);
    var r := Find(posts, p);
    assert forall i :: 0 <= i < |posts| ==> (p(posts[i]) <==> Fallback.PostSlug(posts[i]) == slug);
    assert r.Some? ==> posts[FirstIndex(posts, p)] == r.value;
    r
  }

  /** `categories.find(category => category.id === id) || null`: the first category whose id
      matches, or null when none does. */
  function CategoryWithId(categories: seq<Category>, id: Id): (r: Option<Category>)
    ensures r.None? <==> forall i :: 0 <= i < |categories| ==> categories[i].id != id
    ensures r.Some? ==> exists k :: 0 <= k < |categories| && categories[k] == r.value && r.value.id == id &&
                          forall j :: 0 <= j < k ==> categories[j].id != id
  {
    var p := HasKey(Fallback.CategoryId, id);
    var r := Find(categories, p);
    assert forall i :: 0 <= i < |categories| ==> (p(categories[i]) <==> Fallback.CategoryId(categories[i]) == id);
    assert r.Some? ==> categories[FirstIndex(categories, p)] == r.value;
    r
  }

  /** `newsletters.find(newsletter => newsletter.email === email) || null`: the first newsletter
      whose email matches, or null when none does. */
  function NewsletterWithEmail(newsletters: seq<Newsletter>, email: string): (r: Option<Newsletter>)
    ensures r.None? <==> forall i :: 0 <= i < |newsletters| ==> newsletters[i].email != email
    ensures r.Some? ==> exists k :: 0 <= k < |newsletters| && newsletters[k] == r.value && r.value.email == email &&
                          forall j :: 0 <= j < k ==> newsletters[j].email != email
  {
    var p := HasKey(NewsletterEmailOf, email);
    var r := Find(newsletters, p);
    assert forall i :: 0 <= i < |newsletters| ==> (p(newsletters[i]) <==> NewsletterEmailOf(newsletters[i]) == email);
    assert r.Some? ==> newsletters[FirstIndex(newsletters, p)] == r.value;
    r
  }

  /** `posts.filter(post => post.categories.includes(categoryId))`: exactly the posts filed under
      the category, in their order. */
  function PostsInCategory(posts: seq<Post>, categoryId: Id): (r: seq<Post>)
    ensures forall i :: 0 <= i < |r| ==> categoryId in r[i].categories && r[i] in posts
    ensures forall i :: 0 <= i < |posts| && categoryId in posts[i].categories ==> posts[i] in r
    ensures r == [] <==> forall i :: 0 <= i < |posts| ==> categoryId !in posts[i].categories
  {
    FilterMembers(posts, (p: Post) => InCategory(categoryId, p));
    Filter(posts, (p: Post) => InCategory(categoryId, p))
  }

  /** `posts.filter(post => post.authorId === authorId)`: exactly that author's posts, in their
      order. */
  function PostsByAuthor(posts: seq<Post>, authorId: Id): (r: seq<Post>)
    ensures forall i :: 0 <= i < |r| ==> r[i].authorId == authorId && r[i] in posts
    ensures forall i :: 0 <= i < |posts| && posts[i].authorId == authorId ==> posts[i] in r
    ensures r == [] <==> forall i :: 0 <= i < |posts| ==> posts[i].authorId != authorId
  {
    FilterMembers(posts, (p: Post) => ByAuthor(authorId, p));
    Filter(posts, (p: Post) => ByAuthor(authorId, p))
  }

  /** Both filters keep order: over two runs of posts they give the two answers one after the other. */
  lemma FiltersKeepOrder(a: seq<Post>, b: seq<Post>, categoryId: Id, authorId: Id)
    ensures PostsInCategory(a + b, categoryId) == PostsInCategory(a, categoryId) + PostsInCategory(b, categoryId)
    ensures PostsByAuthor(a + b, authorId) == PostsByAuthor(a, authorId) + PostsByAuthor(b, authorId)
  {
    FilterConcat(a, b, (p: Post) => InCategory(categoryId, p));
    FilterConcat(a, b, (p: Post) => ByAuthor(authorId, p));
  }

  /** Looking a post or a category up in the full list gives what the keyed query
      (`getPostById` / `getCategoryById` of the relational store) gives. */
  lemma DerivedLookupsMatchQueries(t: MySQL.Tables, id: Id)
    ensures PostWithId(MySQL.PostsOf(t), id) == MySQL.PostById(t, id)
    ensures CategoryWithId(MySQL.CategoriesOfTables(t), id) == MySQL.CategoryById(t, id)
  {
    forall row: Rows.PostRow
      ensures HasKey(MySQL.PostKey, id)(row) == HasKey(Fallback.PostId, id)(Rows.PostFromRow(row))
    {
      assert Rows.PostFromRow(row).id == row.id;
      assert MySQL.PostKey(row) == Fallback.PostId(Rows.PostFromRow(row));
      assert HasKey(MySQL.PostKey, id)(row) == (MySQL.PostKey(row) == id);
      assert HasKey(Fallback.PostId, id)(Rows.PostFromRow(row)) == (Fallback.PostId(Rows.PostFromRow(row)) == id);
    }
    FindMapped(t.posts, Rows.PostFromRow, HasKey(Fallback.PostId, id), HasKey(MySQL.PostKey, id));
    forall row: Rows.CategoryRow
      ensures HasKey(MySQL.CategoryKey, id)(row) == HasKey(Fallback.CategoryId, id)(Rows.CategoryFromRow(row))
    {
      assert Rows.CategoryFromRow(row).id == row.id;
      assert MySQL.CategoryKey(row) == Fallback.CategoryId(Rows.CategoryFromRow(row));
      assert HasKey(MySQL.CategoryKey, id)(row) == (MySQL.CategoryKey(row) == id);
      assert HasKey(Fallback.CategoryId, id)(Rows.CategoryFromRow(row)) == (Fallback.CategoryId(Rows.CategoryFromRow(row)) == id);
    }
    FindMapped(t.categories, Rows.CategoryFromRow, HasKey(Fallback.CategoryId, id), HasKey(MySQL.CategoryKey, id));
  }

  // ---------------------------------------------------------------- routed writes

  /** The relational connection is open whenever the relational store is in use. */
  predicate Consistent(st: FacadeState) {
    st.useMySQL ==> st.connection.Some?
  }

  /** `initialize` keeps the facade consistent. */
  lemma InitializeKeepsConsistent(st: FacadeState, config: MySQL.Config, attempt: MySQL.ConnectAttempt,
                                  stamps: nat -> Stamp)
    requires Consistent(st)
    ensures Consistent(InitializeStep(st, config, attempt, stamps))
  {
  }

  /** `createUser` on an initialized facade: sent to the relational store when it is in use, to
      the fallback store otherwise; the store not used is left as it was, and a create that
      fails changes nothing. */
  function CreateUserStep(st: FacadeState, d: UserDraft, s: Stamp): (r: (FacadeState, Result<User>))
    ensures r.0.initialized == st.initialized && r.0.useMySQL == st.useMySQL
    ensures st.useMySQL ==> r.0.local == st.local
    ensures !st.useMySQL ==> (r.0.connection == st.connection && r.1.Ok? &&
              r.0.local == st.local.(users := st.local.users + [r.1.value]))
    ensures r.1.Ok? ==> r.1.value == CreatedUser(d, s)
    ensures r.1.Err? ==> r.0 == st
    ensures Consistent(st) ==> Consistent(r.0)
  {
    if st.useMySQL then
      var (conn, res) := MySQL.CreateUserOn(st.connection, d, s);
      (st.(connection := conn), res)
    else
      var x := CreatedUser(d, s);
      (st.(local := st.local.(users := st.local.users + [x])), Ok(x))
  }

  /** `updateUser` on an initialized facade: a stub answering null while the relational store is
      in use; otherwise the fallback store merges the fields into the user with the id. The
      relational store is never touched. */
  function UpdateUserStep(st: FacadeState, id: Id, p: UserPatch): (r: (FacadeState, Option<User>))
    ensures r.0.initialized == st.initialized && r.0.useMySQL == st.useMySQL && r.0.connection == st.connection
    ensures st.useMySQL ==> r == (st, None)
    ensures !st.useMySQL ==> (r.0.local == st.local.(users := r.0.local.users) &&
              |r.0.local.users| == |st.local.users| &&
              (r.1.None? <==> !Taken(st.local.users, id, Fallback.UserId)) &&
              (r.1.Some? ==> r.1.value.id == id && r.1.value in r.0.local.users))
    ensures !st.useMySQL ==>
              r.0.local.users == Fallback.UpdateFirst(st.local.users, id, Fallback.UserId, Fallback.MergeUserWith(p))
  {
    if st.useMySQL then (st, None)
    else
      var merged := Fallback.UpdateFirst(st.local.users, id, Fallback.UserId, Fallback.MergeUserWith(p));
      var k := FirstIndex(st.local.users, HasKey(Fallback.UserId, id));
      assert k < |st.local.users| ==> merged[k] == Fallback.MergeUser(st.local.users[k], p);
      (st.(local := st.local.(users := merged)),
       Fallback.Answer(Find(st.local.users, HasKey(Fallback.UserId, id)), Fallback.MergeUserWith(p)))
  }

  /** `deleteUser` on an initialized facade: a stub answering false while the relational store is
      in use; otherwise the fallback store removes the user with the id and answers whether
      there was one. The relational store is never touched. */
  function DeleteUserStep(st: FacadeState, id: Id): (r: (FacadeState, bool))
    ensures r.0.initialized == st.initialized && r.0.useMySQL == st.useMySQL && r.0.connection == st.connection
    ensures st.useMySQL ==> r == (st, false)
    ensures !st.useMySQL ==> (r.0.local == st.local.(users := r.0.local.users) &&
              (r.1 <==> Taken(st.local.users, id, Fallback.UserId)) &&
              !Taken(r.0.local.users, id, Fallback.UserId))
    ensures !st.useMySQL ==>
              forall i :: 0 <= i < |st.local.users| && st.local.users[i].id != id ==> st.local.users[i] in r.0.local.users
    ensures !st.useMySQL ==>
              forall i :: 0 <= i < |r.0.local.users| ==> r.0.local.users[i] in st.local.users
  {
    if st.useMySQL then (st, false)
    else
      var (kept, hit) := Fallback.RemoveAll(st.local.users, id, Fallback.UserId);
      (st.(local := st.local.(users := kept)), hit)
  }

  /** `createPost` on an initialized facade: sent to the relational store when it is in use, to
      the fallback store otherwise; the store not used is left as it was, and a create that
      fails changes nothing. */
  function CreatePostStep(st: FacadeState, d: PostDraft, s: Stamp): (r: (FacadeState, Result<Post>))
    ensures r.0.initialized == st.initialized && r.0.useMySQL == st.useMySQL
    ensures st.useMySQL ==> r.0.local == st.local
    ensures !st.useMySQL ==> (r.0.connection == st.connection && r.1.Ok? &&
              r.0.local == st.local.(posts := st.local.posts + [r.1.value]))
    ensures r.1.Ok? ==> r.1.value == CreatedPost(d, s)
    ensures r.1.Err? ==> r.0 == st
    ensures Consistent(st) ==> Consistent(r.0)
  {
    if st.useMySQL then
      var (conn, res) := MySQL.CreatePostOn(st.connection, d, s);
      (st.(connection := conn), res)
    else
      var x := CreatedPost(d, s);
      (st.(local := st.local.(posts := st.local.posts + [x])), Ok(x))
  }

  /** `updatePost` on an initialized facade: a stub answering null while the relational store is
      in use; otherwise the fallback store merges the fields into the post with the id. The
      relational store is never touched. */
  function UpdatePostStep(st: FacadeState, id: Id, p: PostPatch): (r: (FacadeState, Option<Post>))
    ensures r.0.initialized == st.initialized && r.0.useMySQL == st.useMySQL && r.0.connection == st.connection
    ensures st.useMySQL ==> r == (st, None)
    ensures !st.useMySQL ==> (r.0.local == st.local.(posts := r.0.local.posts) &&
              |r.0.local.posts| == |st.local.posts| &&
              (r.1.None? <==> !Taken(st.local.posts, id, Fallback.PostId)) &&
              (r.1.Some? ==> r.1.value.id == id && r.1.value in r.0.local.posts))
    ensures !st.useMySQL ==>
              r.0.local.posts == Fallback.UpdateFirst(st.local.posts, id, Fallback.PostId, Fallback.MergePostWith(p))
  {
    if st.useMySQL then (st, None)
    else
      var merged := Fallback.UpdateFirst(st.local.posts, id, Fallback.PostId, Fallback.MergePostWith(p));
      var k := FirstIndex(st.local.posts, HasKey(Fallback.PostId, id));
      assert k < |st.local.posts| ==> merged[k] == Fallback.MergePost(st.local.posts[k], p);
      (st.(local := st.local.(posts := merged)),
       Fallback.Answer(Find(st.local.posts, HasKey(Fallback.PostId, id)), Fallback.MergePostWith(p)))
  }

  /** `deletePost` on an initialized facade: a stub answering false while the relational store is
      in use; otherwise the fallback store removes the post with the id and answers whether
      there was one. The relational store is never touched. */
  function DeletePostStep(st: FacadeState, id: Id): (r: (FacadeState, bool))
    ensures r.0.initialized == st.initialized && r.0.useMySQL == st.useMySQL && r.0.connection == st.connection
    ensures st.useMySQL ==> r == (st, false)
    ensures !st.useMySQL ==> (r.0.local == st.local.(posts := r.0.local.posts) &&
              (r.1 <==> Taken(st.local.posts, id, Fallback.PostId)) &&
              !Taken(r.0.local.posts, id, Fallback.PostId))
    ensures !st.useMySQL ==>
              forall i :: 0 <= i < |st.local.posts| && st.local.posts[i].id != id ==> st.local.posts[i] in r.0.local.posts
    ensures !st.useMySQL ==>
              forall i :: 0 <= i < |r.0.local.posts| ==> r.0.local.posts[i] in st.local.posts
  {
    if st.useMySQL then (st, false)
    else
      var (kept, hit) := Fallback.RemoveAll(st.local.posts, id, Fallback.PostId);
      (st.(local := st.local.(posts := kept)), hit)
  }

  /** `createCategory` on an initialized facade: sent to the relational store when it is in use, to
      the fallback store otherwise; the store not used is left as it was, and a create that
      fails changes nothing. */
  function CreateCategoryStep(st: FacadeState, d: CategoryDraft, s: Stamp): (r: (FacadeState, Result<Category>))
    ensures r.0.initialized == st.initialized && r.0.useMySQL == st.useMySQL
    ensures st.useMySQL ==> r.0.local == st.local
    ensures !st.useMySQL ==> (r.0.connection == st.connection && r.1.Ok? &&
              r.0.local == st.local.(categories := st.local.categories + [r.1.value]))
    ensures r.1.Ok? ==> r.1.value == CreatedCategory(d, s)
    ensures r.1.Err? ==> r.0 == st
    ensures Consistent(st) ==> Consistent(r.0)
  {
    if st.useMySQL then
      var (conn, res) := MySQL.CreateCategoryOn(st.connection, d, s);
      (st.(connection := conn), res)
    else
      var x := CreatedCategory(d, s);
      (st.(local := st.local.(categories := st.local.categories + [x])), Ok(x))
  }

  /** `updateCategory` on an initialized facade: a stub answering null while the relational store is
      in use; otherwise the fallback store merges the fields into the category with the id. The
      relational store is never touched. */
  function UpdateCategoryStep(st: FacadeState, id: Id, p: CategoryPatch): (r: (FacadeState, Option<Category>))
    ensures r.0.initialized == st.initialized && r.0.useMySQL == st.useMySQL && r.0.connection == st.connection
    ensures st.useMySQL ==> r == (st, None)
    ensures !st.useMySQL ==> (r.0.local == st.local.(categories := r.0.local.categories) &&
              |r.0.local.categories| == |st.local.categories| &&
              (r.1.None? <==> !Taken(st.local.categories, id, Fallback.CategoryId)) &&
              (r.1.Some? ==> r.1.value.id == id && r.1.value in r.0.local.categories))
    ensures !st.useMySQL ==>
              r.0.local.categories == Fallback.UpdateFirst(st.local.categories, id, Fallback.CategoryId, Fallback.MergeCategoryWith(p))
  {
    if st.useMySQL then (st, None)
    else
      var merged := Fallback.UpdateFirst(st.local.categories, id, Fallback.CategoryId, Fallback.MergeCategoryWith(p));
      var k := FirstIndex(st.local.categories, HasKey(Fallback.CategoryId, id));
      assert k < |st.local.categories| ==> merged[k] == Fallback.MergeCategory(st.local.categories[k], p);
      (st.(local := st.local.(categories := merged)),
       Fallback.Answer(Find(st.local.categories, HasKey(Fallback.CategoryId, id)), Fallback.MergeCategoryWith(p)))
  }

  /** `deleteCategory` on an initialized facade: a stub answering false while the relational store
      is in use; otherwise the fallback store removes the category with the id and answers whether
      there was one. The relational store is never touched. */
  function DeleteCategoryStep(st: FacadeState, id: Id): (r: (FacadeState, bool))
    ensures r.0.initialized == st.initialized && r.0.useMySQL == st.useMySQL && r.0.connection == st.connection
    ensures st.useMySQL ==> r == (st, false)
    ensures !st.useMySQL ==> (r.0.local == st.local.(categories := r.0.local.categories) &&
              (r.1 <==> Taken(st.local.categories, id, Fallback.CategoryId)) &&
              !Taken(r.0.local.categories, id, Fallback.CategoryId))
    ensures !st.useMySQL ==>
              forall i :: 0 <= i < |st.local.categories| && st.local.categories[i].id != id ==> st.local.categories[i] in r.0.local.categories
    ensures !st.useMySQL ==>
              forall i :: 0 <= i < |r.0.local.categories| ==> r.0.local.categories[i] in st.local.categories
  {
    if st.useMySQL then (st, false)
    else
      var (kept, hit) := Fallback.RemoveAll(st.local.categories, id, Fallback.CategoryId);
      (st.(local := st.local.(categories := kept)), hit)
  }

  /** `createComment` on an initialized facade: sent to the relational store when it is in use, to
      the fallback store otherwise; the store not used is left as it was, and a create that
      fails changes nothing. */
  function CreateCommentStep(st: FacadeState, d: CommentDraft, s: Stamp): (r: (FacadeState, Result<Comment>))
    ensures r.0.initialized == st.initialized && r.0.useMySQL == st.useMySQL
    ensures st.useMySQL ==> r.0.local == st.local
    ensures !st.useMySQL ==> (r.0.connection == st.connection && r.1.Ok? &&
              r.0.local == st.local.(comments := st.local.comments + [r.1.value]))
    ensures r.1.Ok? ==> r.1.value == CreatedComment(d, s)
    ensures r.1.Err? ==> r.0 == st
    ensures Consistent(st) ==> Consistent(r.0)
  {
    if st.useMySQL then
      var (conn, res) := MySQL.CreateCommentOn(st.connection, d, s);
      (st.(connection := conn), res)
    else
      var x := CreatedComment(d, s);
      (st.(local := st.local.(comments := st.local.comments + [x])), Ok(x))
  }

  /** `deleteComment` on an initialized facade: a stub answering false while the relational store is
      in use; otherwise the fallback store removes the comment with the id and answers whether
      there was one. The relational store is never touched. */
  function DeleteCommentStep(st: FacadeState, id: Id): (r: (FacadeState, bool))
    ensures r.0.initialized == st.initialized && r.0.useMySQL == st.useMySQL && r.0.connection == st.connection
    ensures st.useMySQL ==> r == (st, false)
    ensures !st.useMySQL ==> (r.0.local == st.local.(comments := r.0.local.comments) &&
              (r.1 <==> Taken(st.local.comments, id, Fallback.CommentId)) &&
              !Taken(r.0.local.comments, id, Fallback.CommentId))
    ensures !st.useMySQL ==>
              forall i :: 0 <= i < |st.local.comments| && st.local.comments[i].id != id ==> st.local.comments[i] in r.0.local.comments
    ensures !st.useMySQL ==>
              forall i :: 0 <= i < |r.0.local.comments| ==> r.0.local.comments[i] in st.local.comments
  {
    if st.useMySQL then (st, false)
    else
      var (kept, hit) := Fallback.RemoveAll(st.local.comments, id, Fallback.CommentId);
      (st.(local := st.local.(comments := kept)), hit)
  }

  /** `createContact` on an initialized facade: sent to the relational store when it is in use, to
      the fallback store otherwise; the store not used is left as it was, and a create that
      fails changes nothing. */
  function CreateContactStep(st: FacadeState, d: ContactDraft, s: Stamp): (r: (FacadeState, Result<Contact>))
    ensures r.0.initialized == st.initialized && r.0.useMySQL == st.useMySQL
    ensures st.useMySQL ==> r.0.local == st.local
    ensures !st.useMySQL ==> (r.0.connection == st.connection && r.1.Ok? &&
              r.0.local == st.local.(contacts := st.local.contacts + [r.1.value]))
    ensures r.1.Ok? ==> r.1.value == CreatedContact(d, s)
    ensures r.1.Err? ==> r.0 == st
    ensures Consistent(st) ==> Consistent(r.0)
  {
    if st.useMySQL then
      var (conn, res) := MySQL.CreateContactOn(st.connection, d, s);
      (st.(connection := conn), res)
    else
      var x := CreatedContact(d, s);
      (st.(local := st.local.(contacts := st.local.contacts + [x])), Ok(x))
  }

  /** `deleteContact` on an initialized facade: a stub answering false while the relational store is
      in use; otherwise the fallback store removes the contact with the id and answers whether
      there was one. The relational store is never touched. */
  function DeleteContactStep(st: FacadeState, id: Id): (r: (FacadeState, bool))
    ensures r.0.initialized == st.initialized && r.0.useMySQL == st.useMySQL && r.0.connection == st.connection
    ensures st.useMySQL ==> r == (st, false)
    ensures !st.useMySQL ==> (r.0.local == st.local.(contacts := r.0.local.contacts) &&
              (r.1 <==> Taken(st.local.contacts, id, Fallback.ContactId)) &&
              !Taken(r.0.local.contacts, id, Fallback.ContactId))
    ensures !st.useMySQL ==>
              forall i :: 0 <= i < |st.local.contacts| && st.local.contacts[i].id != id ==> st.local.contacts[i] in r.0.local.contacts
    ensures !st.useMySQL ==>
              forall i :: 0 <= i < |r.0.local.contacts| ==> r.0.local.contacts[i] in st.local.contacts
  {
    if st.useMySQL then (st, false)
    else
      var (kept, hit) := Fallback.RemoveAll(st.local.contacts, id, Fallback.ContactId);
      (st.(local := st.local.(contacts := kept)), hit)
  }

  /** `createNewsletterSubscription` on an initialized facade: sent to the relational store when
      it is in use; the fallback store has no such operation, so the call fails there. */
  function CreateNewsletterStep(st: FacadeState, d: NewsletterDraft, s: Stamp): (r: (FacadeState, Result<Newsletter>))
    ensures r.0.initialized == st.initialized && r.0.useMySQL == st.useMySQL && r.0.local == st.local
    ensures !st.useMySQL ==> r == (st, Err(MissingMethod("createNewsletterSubscription")))
    ensures r.1.Ok? ==> r.1.value == CreatedNewsletter(d, s)
    ensures r.1.Err? ==> r.0 == st
    ensures Consistent(st) ==> Consistent(r.0)
  {
    if st.useMySQL then
      var (conn, res) := MySQL.CreateNewsletterOn(st.connection, d, s);
      (st.(connection := conn), res)
    else (st, Err(MissingMethod("createNewsletterSubscription")))
  }

  // ---------------------------------------------------------------- the facade object

  /** The facade: its two flags, the relational adapter it drives and the fallback store. What
      `connect` meets on the first `initialize`, and the fresh ids and times the migration's
      creates draw, are fixed when it is made. */
  class DatabaseManager {
    var useMySQL: bool
    var initialized: bool
    const mysql: MySQL.MySQLManager
    const storage: Fallback.FallbackStore
    const firstAttempt: MySQL.ConnectAttempt
    const stamps: nat -> Stamp

    /** `new DatabaseManager()`: both flags false, the adapter configured from the environment
        and not connected. */
    constructor (env: map<string, string>, initial: Snapshot, attempt: MySQL.ConnectAttempt,
                 stamps: nat -> Stamp)
      ensures State() == FacadeState(false, false, None, initial)
      ensures mysql.config == MySQL.ConfigFrom(env) && firstAttempt == attempt && this.stamps == stamps
      ensures fresh(mysql) && fresh(storage)
    {
      useMySQL, initialized := false, false;
      mysql := new MySQL.MySQLManager(env);
      storage := new Fallback.FallbackStore(initial);
      firstAttempt := attempt;
      this.stamps := stamps;
    }

    ghost function State(): FacadeState
      reads this, mysql, storage
    {
      FacadeState(initialized, useMySQL, mysql.connection, storage.Contents())
    }

    /** The state `initialize` leaves behind, from the state a call started in. */
    twostate function AfterInitialize(): FacadeState
      reads this, mysql, storage
    {
      InitializeStep(old(State()), mysql.config, firstAttempt, stamps)
    }

    /** `initialize`: connect once; when connected and the fallback store holds users, posts or
        categories, migrate its export and clear it once every record arrived; mark the facade
        initialized. */
    method Initialize()
      modifies this, mysql, storage
      ensures State() == AfterInitialize()
    {
      if initialized {
        return;
      }
      var ok := mysql.Connect(firstAttempt);
      useMySQL := ok;
      if useMySQL {
        var local := storage.Contents();
        if HasLocalData(local) {
          var completed := mysql.MigrateFromLocalStorage(local, stamps);
          if completed {
            storage.ClearAllData();
          }
        }
      }
      initialized := true;
    }

    /** `getAllUsers`. */
    method GetAllUsers() returns (r: seq<User>)
      modifies this, mysql, storage
      ensures State() == AfterInitialize()
      ensures r == if useMySQL then mysql.GetUsers() else storage.users
    {
      Initialize();
      if useMySQL {
        r := mysql.GetUsers();
      } else {
        r := storage.users;
      }
    }

    /** `getUserById`. */
    method GetUserById(id: Id) returns (r: Option<User>)
      modifies this, mysql, storage
      ensures State() == AfterInitialize()
      ensures r == if useMySQL then mysql.GetUserById(id) else storage.GetUserById(id)
    {
      Initialize();
      if useMySQL {
        r := mysql.GetUserById(id);
      } else {
        r := storage.GetUserById(id);
      }
    }

    /** `getUserByEmail`: the full list filtered in relational mode; the fallback store has no such
        operation. */
    method GetUserByEmail(email: string) returns (r: Result<Option<User>>)
      modifies this, mysql, storage
      ensures State() == AfterInitialize()
      ensures r == if useMySQL then Ok(UserWithEmail(mysql.GetUsers(), email)) else Err(MissingMethod("getUserByEmail"))
    {
      Initialize();
      if useMySQL {
        r := Ok(UserWithEmail(mysql.GetUsers(), email));
      } else {
        r := Err(MissingMethod("getUserByEmail"));
      }
    }

    /** `createUser`. */
    method CreateUser(d: UserDraft, s: Stamp) returns (r: Result<User>)
      modifies this, mysql, storage
      ensures (State(), r) == CreateUserStep(AfterInitialize(), d, s)
    {
      Initialize();
      if useMySQL {
        r := mysql.CreateUser(d, s);
      } else {
        var x := storage.CreateUser(d, s);
        r := Ok(x);
      }
    }

    /** `updateUser`: a stub while the relational store is in use. */
    method UpdateUser(id: Id, p: UserPatch) returns (r: Option<User>)
      modifies this, mysql, storage
      ensures (State(), r) == UpdateUserStep(AfterInitialize(), id, p)
    {
      Initialize();
      if useMySQL {
        r := None;
      } else {
        r := storage.UpdateUser(id, p);
      }
    }

    /** `deleteUser`: a stub while the relational store is in use. */
    method DeleteUser(id: Id) returns (r: bool)
      modifies this, mysql, storage
      ensures (State(), r) == DeleteUserStep(AfterInitialize(), id)
    {
      Initialize();
      if useMySQL {
        r := false;
      } else {
        r := storage.DeleteUser(id);
      }
    }

    /** `getAllPosts`. */
    method GetAllPosts() returns (r: seq<Post>)
      modifies this, mysql, storage
      ensures State() == AfterInitialize()
      ensures r == if useMySQL then mysql.GetPosts() else storage.posts
    {
      Initialize();
      if useMySQL {
        r := mysql.GetPosts();
      } else {
        r := storage.posts;
      }
    }

    /** `getPublishedPosts`: the full list filtered in relational mode; the fallback store has no
        such operation. */
    method GetPublishedPosts() returns (r: Result<seq<Post>>)
      modifies this, mysql, storage
      ensures State() == AfterInitialize()
      ensures r == if useMySQL then Ok(mysql.GetPublishedPosts()) else Err(MissingMethod("getPublishedPosts"))
    {
      Initialize();
      if useMySQL {
        r := Ok(mysql.GetPublishedPosts());
      } else {
        r := Err(MissingMethod("getPublishedPosts"));
      }
    }

    /** `getPostsByCategory`: the full list filtered in relational mode; the fallback store has no
        such operation. */
    method GetPostsByCategory(categoryId: Id) returns (r: Result<seq<Post>>)
      modifies this, mysql, storage
      ensures State() == AfterInitialize()
      ensures r == if useMySQL then Ok(PostsInCategory(mysql.GetPosts(), categoryId)) else Err(MissingMethod("getPostsByCategory"))
    {
      Initialize();
      if useMySQL {
        r := Ok(PostsInCategory(mysql.GetPosts(), categoryId));
      } else {
        r := Err(MissingMethod("getPostsByCategory"));
      }
    }

    /** `getPostsByAuthor`: the full list filtered in relational mode; the fallback store has no
        such operation. */
    method GetPostsByAuthor(authorId: Id) returns (r: Result<seq<Post>>)
      modifies this, mysql, storage
      ensures State() == AfterInitialize()
      ensures r == if useMySQL then Ok(PostsByAuthor(mysql.GetPosts(), authorId)) else Err(MissingMethod("getPostsByAuthor"))
    {
      Initialize();
      if useMySQL {
        r := Ok(PostsByAuthor(mysql.GetPosts(), authorId));
      } else {
        r := Err(MissingMethod("getPostsByAuthor"));
      }
    }

    /** `getPostById`. */
    method GetPostById(id: Id) returns (r: Option<Post>)
      modifies this, mysql, storage
      ensures State() == AfterInitialize()
      ensures r == if useMySQL then PostWithId(mysql.GetPosts(), id) else storage.GetPostById(id)
    {
      Initialize();
      if useMySQL {
        r := PostWithId(mysql.GetPosts(), id);
      } else {
        r := storage.GetPostById(id);
      }
    }

    /** `getPostBySlug`. */
    method GetPostBySlug(slug: string) returns (r: Option<Post>)
      modifies this, mysql, storage
      ensures State() == AfterInitialize()
      ensures r == if useMySQL then PostWithSlug(mysql.GetPosts(), slug) else storage.GetPostBySlug(slug)
    {
      Initialize();
      if useMySQL {
        r := PostWithSlug(mysql.GetPosts(), slug);
      } else {
        r := storage.GetPostBySlug(slug);
      }
    }

    /** `createPost`. */
    method CreatePost(d: PostDraft, s: Stamp) returns (r: Result<Post>)
      modifies this, mysql, storage
      ensures (State(), r) == CreatePostStep(AfterInitialize(), d, s)
    {
      Initialize();
      if useMySQL {
        r := mysql.CreatePost(d, s);
      } else {
        var x := storage.CreatePost(d, s);
        r := Ok(x);
      }
    }

    /** `updatePost`: a stub while the relational store is in use. */
    method UpdatePost(id: Id, p: PostPatch) returns (r: Option<Post>)
      modifies this, mysql, storage
      ensures (State(), r) == UpdatePostStep(AfterInitialize(), id, p)
    {
      Initialize();
      if useMySQL {
        r := None;
      } else {
        r := storage.UpdatePost(id, p);
      }
    }

    /** `deletePost`: a stub while the relational store is in use. */
    method DeletePost(id: Id) returns (r: bool)
      modifies this, mysql, storage
      ensures (State(), r) == DeletePostStep(AfterInitialize(), id)
    {
      Initialize();
      if useMySQL {
        r := false;
      } else {
        r := storage.DeletePost(id);
      }
    }

    /** `getAllCategories`. */
    method GetAllCategories() returns (r: seq<Category>)
      modifies this, mysql, storage
      ensures State() == AfterInitialize()
      ensures r == if useMySQL then mysql.GetCategories() else storage.categories
    {
      Initialize();
      if useMySQL {
        r := mysql.GetCategories();
      } else {
        r := storage.categories;
      }
    }

    /** `getCategoryById`. */
    method GetCategoryById(id: Id) returns (r: Option<Category>)
      modifies this, mysql, storage
      ensures State() == AfterInitialize()
      ensures r == if useMySQL then CategoryWithId(mysql.GetCategories(), id) else storage.GetCategoryById(id)
    {
      Initialize();
      if useMySQL {
        r := CategoryWithId(mysql.GetCategories(), id);
      } else {
        r := storage.GetCategoryById(id);
      }
    }

    /** `createCategory`. */
    method CreateCategory(d: CategoryDraft, s: Stamp) returns (r: Result<Category>)
      modifies this, mysql, storage
      ensures (State(), r) == CreateCategoryStep(AfterInitialize(), d, s)
    {
      Initialize();
      if useMySQL {
        r := mysql.CreateCategory(d, s);
      } else {
        var x := storage.CreateCategory(d, s);
        r := Ok(x);
      }
    }

    /** `updateCategory`: a stub while the relational store is in use. */
    method UpdateCategory(id: Id, p: CategoryPatch) returns (r: Option<Category>)
      modifies this, mysql, storage
      ensures (State(), r) == UpdateCategoryStep(AfterInitialize(), id, p)
    {
      Initialize();
      if useMySQL {
        r := None;
      } else {
        r := storage.UpdateCategory(id, p);
      }
    }

    /** `deleteCategory`: a stub while the relational store is in use. */
    method DeleteCategory(id: Id) returns (r: bool)
      modifies this, mysql, storage
      ensures (State(), r) == DeleteCategoryStep(AfterInitialize(), id)
    {
      Initialize();
      if useMySQL {
        r := false;
      } else {
        r := storage.DeleteCategory(id);
      }
    }

    /** `getAllComments`. */
    method GetAllComments() returns (r: seq<Comment>)
      modifies this, mysql, storage
      ensures State() == AfterInitialize()
      ensures r == if useMySQL then [] else storage.comments
    {
      Initialize();
      if useMySQL {
        r := [];
      } else {
        r := storage.comments;
      }
    }

    /** `getCommentsByPostId`. */
    method GetCommentsByPostId(postId: Id) returns (r: seq<Comment>)
      modifies this, mysql, storage
      ensures State() == AfterInitialize()
      ensures r == if useMySQL then mysql.GetCommentsByPostId(postId) else storage.GetCommentsByPostId(postId)
    {
      Initialize();
      if useMySQL {
        r := mysql.GetCommentsByPostId(postId);
      } else {
        r := storage.GetCommentsByPostId(postId);
      }
    }

    /** `createComment`. */
    method CreateComment(d: CommentDraft, s: Stamp) returns (r: Result<Comment>)
      modifies this, mysql, storage
      ensures (State(), r) == CreateCommentStep(AfterInitialize(), d, s)
    {
      Initialize();
      if useMySQL {
        r := mysql.CreateComment(d, s);
      } else {
        var x := storage.CreateComment(d, s);
        r := Ok(x);
      }
    }

    /** `updateComment`: a stub while the relational store is in use; the fallback store has no such
        operation. */
    method UpdateComment(id: Id, p: CommentPatch) returns (r: Result<Option<Comment>>)
      modifies this, mysql, storage
      ensures State() == AfterInitialize()
      ensures r == if useMySQL then Ok(None) else Err(MissingMethod("updateComment"))
    {
      Initialize();
      if useMySQL {
        r := Ok(None);
      } else {
        r := Err(MissingMethod("updateComment"));
      }
    }

    /** `deleteComment`: a stub while the relational store is in use. */
    method DeleteComment(id: Id) returns (r: bool)
      modifies this, mysql, storage
      ensures (State(), r) == DeleteCommentStep(AfterInitialize(), id)
    {
      Initialize();
      if useMySQL {
        r := false;
      } else {
        r := storage.DeleteComment(id);
      }
    }

    /** `getAllContacts`. */
    method GetAllContacts() returns (r: seq<Contact>)
      modifies this, mysql, storage
      ensures State() == AfterInitialize()
      ensures r == if useMySQL then mysql.GetContacts() else storage.contacts
    {
      Initialize();
      if useMySQL {
        r := mysql.GetContacts();
      } else {
        r := storage.contacts;
      }
    }

    /** `createContact`. */
    method CreateContact(d: ContactDraft, s: Stamp) returns (r: Result<Contact>)
      modifies this, mysql, storage
      ensures (State(), r) == CreateContactStep(AfterInitialize(), d, s)
    {
      Initialize();
      if useMySQL {
        r := mysql.CreateContact(d, s);
      } else {
        var x := storage.CreateContact(d, s);
        r := Ok(x);
      }
    }

    /** `updateContact`: a stub while the relational store is in use; the fallback store has no such
        operation. */
    method UpdateContact(id: Id, p: ContactPatch) returns (r: Result<Option<Contact>>)
      modifies this, mysql, storage
      ensures State() == AfterInitialize()
      ensures r == if useMySQL then Ok(None) else Err(MissingMethod("updateContact"))
    {
      Initialize();
      if useMySQL {
        r := Ok(None);
      } else {
        r := Err(MissingMethod("updateContact"));
      }
    }

    /** `deleteContact`: a stub while the relational store is in use. */
    method DeleteContact(id: Id) returns (r: bool)
      modifies this, mysql, storage
      ensures (State(), r) == DeleteContactStep(AfterInitialize(), id)
    {
      Initialize();
      if useMySQL {
        r := false;
      } else {
        r := storage.DeleteContact(id);
      }
    }

    /** `getAllNewsletterSubscriptions`. */
    method GetAllNewsletterSubscriptions() returns (r: seq<Newsletter>)
      modifies this, mysql, storage
      ensures State() == AfterInitialize()
      ensures r == if useMySQL then mysql.GetNewsletters() else storage.newsletters
    {
      Initialize();
      if useMySQL {
        r := mysql.GetNewsletters();
      } else {
        r := storage.newsletters;
      }
    }

    /** `getNewsletterByEmail`: the full list filtered in relational mode; the fallback store has no
        such operation. */
    method GetNewsletterByEmail(email: string) returns (r: Result<Option<Newsletter>>)
      modifies this, mysql, storage
      ensures State() == AfterInitialize()
      ensures r == if useMySQL then Ok(NewsletterWithEmail(mysql.GetNewsletters(), email)) else Err(MissingMethod("getNewsletterByEmail"))
    {
      Initialize();
      if useMySQL {
        r := Ok(NewsletterWithEmail(mysql.GetNewsletters(), email));
      } else {
        r := Err(MissingMethod("getNewsletterByEmail"));
      }
    }

    /** `createNewsletterSubscription`. */
    method CreateNewsletterSubscription(d: NewsletterDraft, s: Stamp) returns (r: Result<Newsletter>)
      modifies this, mysql, storage
      ensures (State(), r) == CreateNewsletterStep(AfterInitialize(), d, s)
    {
      Initialize();
      if useMySQL {
        r := mysql.CreateNewsletter(d, s);
      } else {
        r := Err(MissingMethod("createNewsletterSubscription"));
      }
    }

    /** `updateNewsletterSubscription`: a stub while the relational store is in use; the fallback
        store has no such operation. */
    method UpdateNewsletterSubscription(id: Id, p: NewsletterPatch) returns (r: Result<Option<Newsletter>>)
      modifies this, mysql, storage
      ensures State() == AfterInitialize()
      ensures r == if useMySQL then Ok(None) else Err(MissingMethod("updateNewsletterSubscription"))
    {
      Initialize();
      if useMySQL {
        r := Ok(None);
      } else {
        r := Err(MissingMethod("updateNewsletterSubscription"));
      }
    }

    /** `deleteNewsletterSubscription`: a stub while the relational store is in use; the fallback
        store has no such operation. */
    method DeleteNewsletterSubscription(id: Id) returns (r: Result<bool>)
      modifies this, mysql, storage
      ensures State() == AfterInitialize()
      ensures r == if useMySQL then Ok(false) else Err(MissingMethod("deleteNewsletterSubscription"))
    {
      Initialize();
      if useMySQL {
        r := Ok(false);
      } else {
        r := Err(MissingMethod("deleteNewsletterSubscription"));
      }
    }

    /** `clearAllData`: empties the fallback store; does nothing in relational mode. */
    method ClearAllData()
      modifies this, mysql, storage
      ensures var mid := AfterInitialize();
              State() == if mid.useMySQL then mid else mid.(local := EmptySnapshot)
    {
      Initialize();
      if !useMySQL {
        storage.ClearAllData();
      }
    }

    /** `exportData`. */
    method ExportData() returns (r: Snapshot)
      modifies this, mysql, storage
      ensures State() == AfterInitialize()
      ensures r == if useMySQL then RelationalExport(mysql.connection) else storage.Contents()
    {
      Initialize();
      if useMySQL {
        r := RelationalExport(mysql.connection);
      } else {
        r := storage.Contents();
      }
    }

    /** `importData`: a stub while the relational store is in use; the fallback store has no such
        operation. */
    method ImportData(json: string) returns (r: Result<bool>)
      modifies this, mysql, storage
      ensures State() == AfterInitialize()
      ensures r == if useMySQL then Ok(false) else Err(MissingMethod("importData"))
    {
      Initialize();
      if useMySQL {
        r := Ok(false);
      } else {
        r := Err(MissingMethod("importData"));
      }
    }

    /** `initializeSampleData`: the fallback store installs its sample records; does nothing in
        relational mode. */
    method InitializeSampleData(sample: Snapshot)
      modifies this, mysql, storage
      ensures var mid := AfterInitialize();
              State() == if mid.useMySQL then mid else mid.(local := sample)
    {
      Initialize();
      if !useMySQL {
        storage.InitializeSampleData(sample);
      }
    }

    /** `getStatus`: the fallback store is reported connected and healthy; the relational store
        connected, and healthy when the `SELECT 1` probe (answered by `probeAnswers`) succeeds. */
    method GetStatus(probeAnswers: bool) returns (s: Status)
      modifies this, mysql, storage
      ensures State() == AfterInitialize()
      ensures s.connected
      ensures !useMySQL ==> s == Status(LocalStorage, true, true)
      ensures useMySQL ==> s.kind == MySQLStore && s.healthy == mysql.IsHealthy(probeAnswers)
    {
      Initialize();
      if useMySQL {
        var healthy := mysql.IsHealthy(probeAnswers);
        s := Status(MySQLStore, true, healthy);
      } else {
        s := Status(LocalStorage, true, true);
      }
    }

    /** `switchToLocalStorage`: route to the fallback store and close the connection; the
        facade stays as initialized as it was. */
    method SwitchToLocalStorage()
      modifies this, mysql
      ensures State() == old(State()).(useMySQL := false, connection := None)
    {
      useMySQL := false;
      mysql.Disconnect();
    }

    /** `reconnectMySQL`: connect again and route by the outcome, which is returned; the facade
        stays as initialized as it was. */
    method ReconnectMySQL(attempt: MySQL.ConnectAttempt) returns (connected: bool)
      modifies this, mysql
      ensures connected == MySQL.ConnectSucceeds(mysql.config, attempt)
      ensures State() == old(State()).(useMySQL := connected,
                                       connection := MySQL.AfterConnect(mysql.config, attempt, old(mysql.connection)))
    {
      connected := mysql.Connect(attempt);
      useMySQL := connected;
    }
  }
}

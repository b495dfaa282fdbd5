/** The relational side of src/lib/mysql.ts: the row each table holds, the translation of
    entities into rows on create, of rows into entities on read, and the column assignments
    an update writes. */
module Rows {
  import opened Wrappers
  import opened Entities
  import Text
  import Lists

  /** A bound parameter of a statement: text, or a number (`is_active` is written as 1/0). */
  datatype SqlValue = Str(s: string) | Num(n: int)

  datatype UserRow = UserRow(
    id: Id, name: Option<string>, email: string, password: Option<string>, role: string,
    avatar: Option<string>, created_at: Timestamp, updated_at: Timestamp)

  datatype CategoryRow = CategoryRow(
    id: Id, name: string, description: Option<string>, color: Option<string>,
    created_at: Timestamp, updated_at: Timestamp)

  datatype PostRow = PostRow(
    id: Id, title: string, content: Option<string>, excerpt: Option<string>, author_id: Id,
    category_id: Option<Id>, status: string, featured: int, image: Option<string>,
    tags: string, created_at: Timestamp, updated_at: Timestamp)

  datatype CommentRow = CommentRow(
    id: Id, content: string, author_id: Id, post_id: Id, parent_id: Option<Id>,
    status: string, created_at: Timestamp, updated_at: Timestamp)

  datatype ContactRow = ContactRow(
    id: Id, name: string, email: string, phone: Option<string>, subject: string,
    message: string, status: string, created_at: Timestamp, updated_at: Timestamp)

  datatype NewsletterRow = NewsletterRow(
    id: Id, email: string, is_active: int, created_at: Timestamp, updated_at: Timestamp)

  // ---------------------------------------------------------------- enum encodings

  /** `role === 'ADMIN' ? 'admin' : 'user'`. ADMIN and USER read back as themselves,
      MODERATOR reads back as USER. */
  function RoleToDb(r: Role): (s: string)
    ensures RoleFromDb(s) == (if r == MODERATOR then USER else r)
  {
    if r == ADMIN then "admin" else "user"
  }

  /** `row.role === 'admin' ? 'ADMIN' : 'USER'`. Both stored spellings survive a write-back. */
  function RoleFromDb(s: string): (r: Role)
    ensures r != MODERATOR
    ensures r == ADMIN <==> s == "admin"
  {
    if s == "admin" then ADMIN else USER
  }

  /** Post status to its lower-case column value; every status reads back as itself. */
  function PostStatusToDb(st: PostStatus): (s: string)
    ensures PostStatusFromDb(s) == st
  {
    if st == PUBLISHED then "published" else if st == ARCHIVED then "archived" else "draft"
  }

  /** Column value to post status; anything but 'published' or 'archived' reads as DRAFT. */
  function PostStatusFromDb(s: string): (st: PostStatus)
    ensures s != "published" && s != "archived" ==> st == DRAFT
  {
    if s == "published" then PUBLISHED else if s == "archived" then ARCHIVED else DRAFT
  }

  /** Contact status to its lower-case column value; every status reads back as itself. */
  function ContactStatusToDb(st: ContactStatus): (s: string)
    ensures ContactStatusFromDb(s) == st
  {
    if st == REVIEWED then "reviewed"
    else if st == RESPONDED then "responded"
    else if st == CLOSED then "closed"
    else "pending"
  }

  /** Column value to contact status; an unknown value reads as PENDING. */
  function ContactStatusFromDb(s: string): (st: ContactStatus)
    ensures s != "reviewed" && s != "responded" && s != "closed" ==> st == PENDING
  {
    if s == "reviewed" then REVIEWED
    else if s == "responded" then RESPONDED
    else if s == "closed" then CLOSED
    else PENDING
  }

  /** `isActive ? 1 : 0`; reading it back by truthiness gives the flag again. */
  function ActiveToDb(b: bool): (n: int)
    ensures ActiveFromDb(n) == b
  {
    if b then 1 else 0
  }

  /** `Boolean(row.is_active)`: every non-zero number is true. */
  function ActiveFromDb(n: int): bool {
    n != 0
  }

  /** The stored spellings the adapter writes survive a read followed by a write. */
  lemma StoredValuesRoundTrip(role: string, postStatus: string, contactStatus: string, active: int)
    ensures role in {"admin", "user"} ==> RoleToDb(RoleFromDb(role)) == role
    ensures postStatus in {"draft", "published", "archived"} ==>
              PostStatusToDb(PostStatusFromDb(postStatus)) == postStatus
    ensures contactStatus in {"pending", "reviewed", "responded", "closed"} ==>
              ContactStatusToDb(ContactStatusFromDb(contactStatus)) == contactStatus
    ensures active in {0, 1} ==> ActiveToDb(ActiveFromDb(active)) == active
  {
  }

  /** `value || undefined` and `value || null` on an optional string: the empty string is dropped. */
  function Truthy(v: Option<string>): (r: Option<string>)
    ensures r.None? <==> v.None? || v.value == ""
    ensures r.Some? ==> r == v
  {
    if v.Some? && v.value != "" then v else None
  }

  // ---------------------------------------------------------------- reading rows

  /** A users row read back: the phone is not a column and reads as absent, and the role is
      only ever ADMIN or USER. */
  function UserFromRow(row: UserRow): (u: User)
    ensures u.id == row.id && u.email == row.email && u.name == row.name
    ensures u.phone.None? && u.role != MODERATOR && (u.role == ADMIN <==> row.role == "admin")
    ensures u.createdAt == row.created_at && u.updatedAt == row.updated_at
  {
    User(row.id, row.email, row.name, None, RoleFromDb(row.role), row.created_at, row.updated_at)
  }

  /** A categories row read back: the slug is not a column and is derived from the name. */
  function CategoryFromRow(row: CategoryRow): (c: Category)
    ensures c.id == row.id && c.name == row.name && c.slug == Text.Slugify(c.name)
    ensures c.description == row.description && c.color == row.color
  {
    Category(row.id, row.name, Text.Slugify(row.name), row.description, row.color,
             row.created_at, row.updated_at)
  }

  /** `publishedAt`: the update time exactly when the stored status is 'published'. */
  function PublishedAt(row: PostRow): (r: Option<Timestamp>)
    ensures r.Some? <==> row.status == "published"
    ensures r.Some? ==> r.value == row.updated_at
  {
    if row.status == "published" then Some(row.updated_at) else None
  }

  /** `categories: [row.category_id]`. */
  function CategoriesOf(categoryId: Option<Id>): seq<Id> {
    if categoryId.Some? then [categoryId.value] else []
  }

  /** A posts row read back: the slug is derived from the title, a post is published exactly
      when it carries a publication time, which is its update time, and it has at most one
      category, the stored one. */
  function PostFromRow(row: PostRow): (q: Post)
    ensures q.id == row.id && q.title == row.title && q.slug == Text.Slugify(q.title)
    ensures q.publishedAt.Some? <==> q.status == PUBLISHED
    ensures q.publishedAt.Some? ==> q.publishedAt.value == q.updatedAt
    ensures q.categories == if row.category_id.Some? then [row.category_id.value] else []
  {
    Post(row.id, row.title, row.content, row.excerpt, Text.Slugify(row.title),
         PostStatusFromDb(row.status), PublishedAt(row), row.created_at, row.updated_at,
         row.author_id, CategoriesOf(row.category_id))
  }

  /** The mapping `getPublishedPosts` writes out for rows it selected by status 'published'. */
  function PublishedPostFromRow(row: PostRow): (p: Post)
    ensures row.status == "published" ==> p == PostFromRow(row)
  {
    Post(row.id, row.title, row.content, row.excerpt, Text.Slugify(row.title), PUBLISHED,
         Some(row.updated_at), row.created_at, row.updated_at, row.author_id,
         CategoriesOf(row.category_id))
  }

  /** A comments row read back: its author and post are the stored ones. */
  function CommentFromRow(row: CommentRow): (c: Comment)
    ensures c.id == row.id && c.content == row.content
    ensures c.authorId == row.author_id && c.postId == row.post_id
  {
    Comment(row.id, row.content, row.created_at, row.updated_at, row.author_id, row.post_id)
  }

  /** A contacts row read back: an empty stored phone reads as absent. */
  function ContactFromRow(row: ContactRow): (c: Contact)
    ensures c.id == row.id && c.email == row.email
    ensures c.phone != Some("") && (c.phone.Some? ==> c.phone == row.phone)
    ensures row.status == ContactStatusToDb(c.status) || c.status == PENDING
  {
    Contact(row.id, row.name, row.email, Truthy(row.phone), row.subject, row.message,
            ContactStatusFromDb(row.status), row.created_at, row.updated_at)
  }

  /** A newsletter row read back: the name is not a column, and any non-zero flag is active. */
  function NewsletterFromRow(row: NewsletterRow): (n: Newsletter)
    ensures n.id == row.id && n.email == row.email && n.name.None?
    ensures n.isActive <==> row.is_active != 0
  {
    Newsletter(row.id, row.email, None, ActiveFromDb(row.is_active), row.created_at, row.updated_at)
  }

  // ---------------------------------------------------------------- creating rows
  // For each kind: the row the INSERT stores, the entity the create call returns, and, as the
  // row builder's contract, how a later read of that row differs from what create returned.

  /** The users row `createUser` inserts. Reading it back gives what create returned, except
      that the phone is gone and a MODERATOR has become a USER. */
  function UserRowOf(d: UserDraft, s: Stamp): (row: UserRow)
    ensures row.id == s.id && row.email == d.email
    ensures UserFromRow(row) ==
      CreatedUser(d, s).(phone := None, role := if d.role == MODERATOR then USER else d.role)
  {
    UserRow(s.id, d.name, d.email, d.password, RoleToDb(d.role), d.avatar, s.now, s.now)
  }

  /** The categories row `createCategory` inserts. The slug is not stored: a read derives it
      from the name, whatever slug create was given. */
  function CategoryRowOf(d: CategoryDraft, s: Stamp): (row: CategoryRow)
    ensures row.id == s.id
    ensures CategoryFromRow(row) == CreatedCategory(d, s).(slug := Text.Slugify(d.name))
  {
    CategoryRow(s.id, d.name, d.description, d.color, s.now, s.now)
  }

  /** `post.categories && post.categories.length > 0 ? post.categories[0] : null`. */
  function FirstCategory(categories: seq<Id>): (r: Option<Id>)
    ensures r.Some? <==> |categories| > 0
    ensures r.Some? ==> r.value == categories[0]
  {
    if |categories| > 0 then Some(categories[0]) else None
  }

  /** The posts row `createPost` inserts. A read gives back the slug derived from the title,
      at most the first category, and `publishedAt` only for a published post. */
  function PostRowOf(d: PostDraft, s: Stamp): (row: PostRow)
    ensures row.id == s.id
    ensures PostFromRow(row) == CreatedPost(d, s).(
      slug := Text.Slugify(d.title),
      publishedAt := if d.status == PUBLISHED then Some(s.now) else None,
      categories := Lists.Take(d.categories, 1))
  {
    PostRow(s.id, d.title, d.content, d.excerpt, d.authorId, FirstCategory(d.categories),
            PostStatusToDb(d.status), 0, None, "[]", s.now, s.now)
  }

  /** The comments row `createComment` inserts, with no parent and status 'pending'; a read
      gives back exactly what create returned. */
  function CommentRowOf(d: CommentDraft, s: Stamp): (row: CommentRow)
    ensures row.id == s.id
    ensures CommentFromRow(row) == CreatedComment(d, s)
  {
    CommentRow(s.id, d.content, d.authorId, d.postId, None, "pending", s.now, s.now)
  }

  /** The contacts row `createContact` inserts. A read gives back what create returned, except
      that an empty phone number comes back absent. */
  function ContactRowOf(d: ContactDraft, s: Stamp): (row: ContactRow)
    ensures row.id == s.id
    ensures ContactFromRow(row) == CreatedContact(d, s).(phone := Truthy(d.phone))
  {
    ContactRow(s.id, d.name, d.email, Truthy(d.phone), d.subject, d.message,
               ContactStatusToDb(d.status), s.now, s.now)
  }

  /** The newsletters row `createNewsletter` inserts; `isActive` is stored as 1/0 and a read
      gives back exactly what create returned. */
  function NewsletterRowOf(d: NewsletterDraft, s: Stamp): (row: NewsletterRow)
    ensures row.id == s.id && row.email == d.email
    ensures NewsletterFromRow(row) == CreatedNewsletter(d, s)
  {
    NewsletterRow(s.id, d.email, ActiveToDb(d.isActive), s.now, s.now)
  }

  // ---------------------------------------------------------------- updating rows

  /** One `key = ?` of an UPDATE with its bound value. The key is the property name the
      update object carries, written into the statement as it is. */
  datatype Assignment = Assignment(column: string, value: SqlValue)

  /** The filter every update applies to the keys: `key !== 'id' && key !== 'createdAt'`. */
  predicate Writable(a: Assignment) {
    a.column != "id" && a.column != "createdAt"
  }

  /** The value a present text property binds; nothing when the property is absent. */
  function Bound(v: Option<string>): (r: Option<SqlValue>)
    ensures r.Some? <==> v.Some?
    ensures v.Some? ==> r.value == Str(v.value)
  {
    if v.Some? then Some(Str(v.value)) else None
  }

  /** Property names that differ pairwise, as the keys of one object do. */
  predicate Distinct(names: seq<string>) {
    forall i, j :: 0 <= i < j < |names| ==> names[i] != names[j]
  }

  /** `Object.keys`/`Object.entries` of an object whose properties, in order, are `names`
      with `values`: a property the object lacks contributes nothing. */
  function Present(names: seq<string>, values: seq<Option<SqlValue>>): (keys: seq<Assignment>)
    requires |names| == |values|
    ensures |keys| <= |names|
    ensures forall a :: a in keys ==> a.column in names
    ensures keys == [] <==> forall i :: 0 <= i < |values| ==> values[i].None?
    decreases |names|
  {
    if names == [] then []
    else (if values[0].Some? then [Assignment(names[0], values[0].value)] else []) + Present(names[1..], values[1..])
  }

  /** Among distinct property names, the property at `k` contributes its own assignment when
      present, and no other assignment names its column. */
  lemma {:induction false} PresentAt(names: seq<string>, values: seq<Option<SqlValue>>, k: nat)
    requires |names| == |values| && Distinct(names) && k < |names|
    ensures values[k].Some? ==> Assignment(names[k], values[k].value) in Present(names, values)
    ensures forall a :: a in Present(names, values) && a.column == names[k] ==> values[k] == Some(a.value)
    decreases k
  {
    if k > 0 {
      PresentAt(names[1..], values[1..], k - 1);
    }
  }

  /** The `fields`/`values` pairs an update builds: the keys of the translated update object,
      in order, without `id` and `createdAt`. */
  function Fields(keys: seq<Assignment>): (fields: seq<Assignment>)
    ensures forall i :: 0 <= i < |fields| ==> Writable(fields[i]) && fields[i] in keys
    ensures fields == [] <==> forall i :: 0 <= i < |keys| ==> !Writable(keys[i])
  {
    Lists.FilterMembers(keys, Writable);
    Lists.Filter(keys, Writable)
  }

  /** A writable key keeps its place among the fields: what comes before it stays before it
      and what comes after it stays after it. */
  lemma FieldsInOrder(before: seq<Assignment>, k: Assignment, after: seq<Assignment>)
    ensures Fields(before + [k] + after) == Fields(before) + (if Writable(k) then [k] else []) + Fields(after)
  {
    Lists.FilterConcat(before + [k], after, Writable);
    Lists.FilterSnoc(before, k, Writable);
  }

  /** The assignments the UPDATE statement carries once `updated_at` is pushed after the fields. */
  function Statement(fields: seq<Assignment>, now: Timestamp): (stmt: seq<Assignment>)
    ensures |stmt| == |fields| + 1 && stmt[..|fields|] == fields
    ensures stmt[|fields|] == Assignment("updated_at", Str(now))
  {
    fields + [Assignment("updated_at", Str(now))]
  }

  /** The properties of `Partial<User>`, in the order the update object is taken to carry them. */
  const UserKeyNames := ["id", "email", "name", "phone", "role", "createdAt", "updatedAt"]

  /** The values of `{ ...updates }` for a user, with the role translated. */
  function UserValues(p: UserPatch): (values: seq<Option<SqlValue>>)
    ensures |values| == |UserKeyNames|
  {
    [Bound(p.id), Bound(p.email), Bound(p.name), Bound(p.phone),
     if p.role.Some? then Some(Str(RoleToDb(p.role.value))) else None,
     Bound(p.createdAt), Bound(p.updatedAt)]
  }

  /** The update object's entries: only user properties, none at all exactly when the
      update sends none of them. */
  function UserKeys(p: UserPatch): (keys: seq<Assignment>)
    ensures forall a :: a in keys ==> a.column in UserKeyNames
    ensures keys == [] <==>
              (p.id.None? && p.email.None? && p.name.None? && p.phone.None? && p.role.None? &&
               p.createdAt.None? && p.updatedAt.None?)
  {
    Present(UserKeyNames, UserValues(p))
  }

  const PostKeyNames := ["id", "title", "content", "excerpt", "status", "createdAt", "updatedAt",
                         "authorId", "category_id"]

  /** The `category_id` the post update adds: the first category of a non-empty list. */
  function CategoryIdOf(p: PostPatch): (r: Option<Id>)
    ensures r.Some? <==> p.categories.Some? && |p.categories.value| > 0
    ensures r.Some? ==> r.value == p.categories.value[0]
  {
    if p.categories.Some? then FirstCategory(p.categories.value) else None
  }

  /** The values of the translated post update: status lower-cased, `category_id` added from the
      first category, and `categories`, `slug` and `publishedAt` deleted. */
  function PostValues(p: PostPatch): (values: seq<Option<SqlValue>>)
    ensures |values| == |PostKeyNames|
  {
    [Bound(p.id), Bound(p.title), Bound(p.content), Bound(p.excerpt),
     if p.status.Some? then Some(Str(PostStatusToDb(p.status.value))) else None,
     Bound(p.createdAt), Bound(p.updatedAt), Bound(p.authorId),
     Bound(CategoryIdOf(p))]
  }

  /** The update object's entries: only post properties, none at all exactly when the
      update sends none of them. */
  function PostKeys(p: PostPatch): (keys: seq<Assignment>)
    ensures forall a :: a in keys ==> a.column in PostKeyNames
    ensures keys == [] <==>
              (p.id.None? && p.title.None? && p.content.None? && p.excerpt.None? &&
               p.status.None? && p.createdAt.None? && p.updatedAt.None? && p.authorId.None? &&
               CategoryIdOf(p).None?)
  {
    Present(PostKeyNames, PostValues(p))
  }

  const CategoryKeyNames := ["id", "name", "description", "color", "createdAt", "updatedAt"]

  /** The values of the category update, with `slug` deleted. */
  function CategoryValues(p: CategoryPatch): (values: seq<Option<SqlValue>>)
    ensures |values| == |CategoryKeyNames|
  {
    [Bound(p.id), Bound(p.name), Bound(p.description), Bound(p.color), Bound(p.createdAt),
     Bound(p.updatedAt)]
  }

  /** The update object's entries: only category properties, none at all exactly when the
      update sends none of them. */
  function CategoryKeys(p: CategoryPatch): (keys: seq<Assignment>)
    ensures forall a :: a in keys ==> a.column in CategoryKeyNames
    ensures keys == [] <==>
              (p.id.None? && p.name.None? && p.description.None? && p.color.None? &&
               p.createdAt.None? && p.updatedAt.None?)
  {
    Present(CategoryKeyNames, CategoryValues(p))
  }

  const CommentKeyNames := ["id", "content", "createdAt", "updatedAt", "authorId", "postId"]

  /** The values of the comment update, untranslated. */
  function CommentValues(p: CommentPatch): (values: seq<Option<SqlValue>>)
    ensures |values| == |CommentKeyNames|
  {
    [Bound(p.id), Bound(p.content), Bound(p.createdAt), Bound(p.updatedAt), Bound(p.authorId),
     Bound(p.postId)]
  }

  /** The update object's entries: only comment properties, none at all exactly when the
      update sends none of them. */
  function CommentKeys(p: CommentPatch): (keys: seq<Assignment>)
    ensures forall a :: a in keys ==> a.column in CommentKeyNames
    ensures keys == [] <==>
              (p.id.None? && p.content.None? && p.createdAt.None? && p.updatedAt.None? &&
               p.authorId.None? && p.postId.None?)
  {
    Present(CommentKeyNames, CommentValues(p))
  }

  const ContactKeyNames := ["id", "name", "email", "phone", "subject", "message", "status",
                            "createdAt", "updatedAt"]

  /** The values of the contact update, with the status lower-cased. */
  function ContactValues(p: ContactPatch): (values: seq<Option<SqlValue>>)
    ensures |values| == |ContactKeyNames|
  {
    [Bound(p.id), Bound(p.name), Bound(p.email), Bound(p.phone), Bound(p.subject),
     Bound(p.message),
     if p.status.Some? then Some(Str(ContactStatusToDb(p.status.value))) else None,
     Bound(p.createdAt), Bound(p.updatedAt)]
  }

  /** The update object's entries: only contact properties, none at all exactly when the
      update sends none of them. */
  function ContactKeys(p: ContactPatch): (keys: seq<Assignment>)
    ensures forall a :: a in keys ==> a.column in ContactKeyNames
    ensures keys == [] <==>
              (p.id.None? && p.name.None? && p.email.None? && p.phone.None? && p.subject.None? &&
               p.message.None? && p.status.None? && p.createdAt.None? && p.updatedAt.None?)
  {
    Present(ContactKeyNames, ContactValues(p))
  }

  const NewsletterKeyNames := ["id", "email", "name", "createdAt", "updatedAt", "is_active"]

  /** The values of the newsletter update: a boolean `isActive` is replaced by `is_active` = 1/0,
      added after the other keys. */
  function NewsletterValues(p: NewsletterPatch): (values: seq<Option<SqlValue>>)
    ensures |values| == |NewsletterKeyNames|
  {
    [Bound(p.id), Bound(p.email), Bound(p.name), Bound(p.createdAt), Bound(p.updatedAt),
     if p.isActive.Some? then Some(Num(ActiveToDb(p.isActive.value))) else None]
  }

  /** The update object's entries: only newsletter properties, none at all exactly when the
      update sends none of them. */
  function NewsletterKeys(p: NewsletterPatch): (keys: seq<Assignment>)
    ensures forall a :: a in keys ==> a.column in NewsletterKeyNames
    ensures keys == [] <==>
              (p.id.None? && p.email.None? && p.name.None? && p.createdAt.None? &&
               p.updatedAt.None? && p.isActive.None?)
  {
    Present(NewsletterKeyNames, NewsletterValues(p))
  }

  // Each table's update object names each property once, and names none of the columns that
  // only the INSERT writes.

  /** The user properties an update writes, each at its place. */
  lemma UserKeysAt(p: UserPatch)
    ensures var names, values := UserKeyNames, UserValues(p);
            names[1] == "email" && values[1] == Bound(p.email) &&
            names[2] == "name" && values[2] == Bound(p.name) &&
            names[4] == "role" && values[4] == (if p.role.Some? then Some(Str(RoleToDb(p.role.value))) else None)
  {
  }

  /** The category properties an update writes, each at its place. */
  lemma CategoryKeysAt(p: CategoryPatch)
    ensures var names, values := CategoryKeyNames, CategoryValues(p);
            names[1] == "name" && values[1] == Bound(p.name) &&
            names[2] == "description" && values[2] == Bound(p.description) &&
            names[3] == "color" && values[3] == Bound(p.color)
  {
  }

  /** The post properties an update writes, each at its place. */
  lemma PostKeysAt(p: PostPatch)
    ensures var names, values := PostKeyNames, PostValues(p);
            names[1] == "title" && values[1] == Bound(p.title) &&
            names[2] == "content" && values[2] == Bound(p.content) &&
            names[3] == "excerpt" && values[3] == Bound(p.excerpt) &&
            names[4] == "status" && values[4] == (if p.status.Some? then Some(Str(PostStatusToDb(p.status.value))) else None) &&
            names[8] == "category_id" && values[8] == Bound(CategoryIdOf(p))
  {
  }

  /** The comment properties an update writes, each at its place. */
  lemma CommentKeysAt(p: CommentPatch)
    ensures var names, values := CommentKeyNames, CommentValues(p);
            names[1] == "content" && values[1] == Bound(p.content)
  {
  }

  /** The contact properties an update writes, each at its place. */
  lemma ContactKeysAt(p: ContactPatch)
    ensures var names, values := ContactKeyNames, ContactValues(p);
            names[1] == "name" && values[1] == Bound(p.name) &&
            names[2] == "email" && values[2] == Bound(p.email) &&
            names[3] == "phone" && values[3] == Bound(p.phone) &&
            names[4] == "subject" && values[4] == Bound(p.subject) &&
            names[5] == "message" && values[5] == Bound(p.message) &&
            names[6] == "status" && values[6] == (if p.status.Some? then Some(Str(ContactStatusToDb(p.status.value))) else None)
  {
  }

  /** The newsletter properties an update writes, each at its place. */
  lemma NewsletterKeysAt(p: NewsletterPatch)
    ensures var names, values := NewsletterKeyNames, NewsletterValues(p);
            names[1] == "email" && values[1] == Bound(p.email) &&
            names[5] == "is_active" && values[5] == (if p.isActive.Some? then Some(Num(ActiveToDb(p.isActive.value))) else None)
  {
  }

  lemma UserKeyNamesDistinct()
    ensures Distinct(UserKeyNames)
    ensures "password" !in UserKeyNames && "avatar" !in UserKeyNames && "created_at" !in UserKeyNames
  {
  }

  lemma PostKeyNamesDistinct()
    ensures Distinct(PostKeyNames)
    ensures "author_id" !in PostKeyNames && "featured" !in PostKeyNames && "image" !in PostKeyNames
    ensures "tags" !in PostKeyNames && "created_at" !in PostKeyNames
  {
  }

  lemma CategoryKeyNamesDistinct()
    ensures Distinct(CategoryKeyNames)
    ensures "created_at" !in CategoryKeyNames
  {
  }

  lemma CommentKeyNamesDistinct()
    ensures Distinct(CommentKeyNames)
    ensures "author_id" !in CommentKeyNames && "post_id" !in CommentKeyNames
    ensures "parent_id" !in CommentKeyNames && "status" !in CommentKeyNames && "created_at" !in CommentKeyNames
  {
  }

  lemma ContactKeyNamesDistinct()
    ensures Distinct(ContactKeyNames)
    ensures "created_at" !in ContactKeyNames
  {
  }

  lemma NewsletterKeyNamesDistinct()
    ensures Distinct(NewsletterKeyNames)
    ensures "created_at" !in NewsletterKeyNames
  {
  }

  /** The keys of a post update name none of `slug`, `publishedAt` and `categories`. */
  lemma PostKeysOmit(p: PostPatch)
    ensures forall a :: a in PostKeys(p) ==>
              a.column != "slug" && a.column != "publishedAt" && a.column != "categories"
  {
    assert "slug" !in PostKeyNames && "publishedAt" !in PostKeyNames && "categories" !in PostKeyNames;
  }

  /** The keys of a post update name `category_id` exactly when a first category exists, with
      that category. */
  lemma PostKeysCategory(p: PostPatch)
    ensures forall a :: a in PostKeys(p) && a.column == "category_id" ==>
              a.value.Str? && CategoryIdOf(p) == Some(a.value.s)
    ensures CategoryIdOf(p).Some? ==> Assignment("category_id", Str(CategoryIdOf(p).value)) in PostKeys(p)
  {
    PostKeyNamesDistinct();
    PostKeysAt(p);
    PresentAt(PostKeyNames, PostValues(p), 8);
  }

  /** A key is among the fields exactly when it is among the keys and writable. */
  lemma FieldsMembers(keys: seq<Assignment>)
    ensures forall a :: a in Fields(keys) <==> a in keys && Writable(a)
  {
    Lists.FilterMembers(keys, Writable);
  }

  /** A post update writes none of `slug`, `publishedAt` and `categories`, and it writes
      `category_id`, as the first category, exactly when a non-empty category list is given. */
  lemma PostFieldsTranslation(p: PostPatch)
    ensures forall a :: a in Fields(PostKeys(p)) ==>
              a.column != "slug" && a.column != "publishedAt" && a.column != "categories"
    ensures p.categories.Some? && |p.categories.value| > 0 ==>
              Assignment("category_id", Str(p.categories.value[0])) in Fields(PostKeys(p))
    ensures !(p.categories.Some? && |p.categories.value| > 0) ==>
              forall a :: a in Fields(PostKeys(p)) ==> a.column != "category_id"
  {
    PostKeysOmit(p);
    PostKeysCategory(p);
    FieldsMembers(PostKeys(p));
  }

  // ---------------------------------------------------------------- applying an UPDATE

  datatype ColumnKind = TextColumn | NumberColumn

  /** The columns each table's rows carry, as the INSERT and SELECT of the adapter use them. */
  function UserColumn(c: string): Option<ColumnKind> {
    if c in {"id", "name", "email", "password", "role", "avatar", "created_at", "updated_at"}
    then Some(TextColumn) else None
  }

  function CategoryColumn(c: string): Option<ColumnKind> {
    if c in {"id", "name", "description", "color", "created_at", "updated_at"}
    then Some(TextColumn) else None
  }

  function PostColumn(c: string): Option<ColumnKind> {
    if c == "featured" then Some(NumberColumn)
    else if c in {"id", "title", "content", "excerpt", "author_id", "category_id", "status",
                  "image", "tags", "created_at", "updated_at"}
    then Some(TextColumn) else None
  }

  function CommentColumn(c: string): Option<ColumnKind> {
    if c in {"id", "content", "author_id", "post_id", "parent_id", "status", "created_at", "updated_at"}
    then Some(TextColumn) else None
  }

  function ContactColumn(c: string): Option<ColumnKind> {
    if c in {"id", "name", "email", "phone", "subject", "message", "status", "created_at", "updated_at"}
    then Some(TextColumn) else None
  }

  function NewsletterColumn(c: string): Option<ColumnKind> {
    if c == "is_active" then Some(NumberColumn)
    else if c in {"id", "email", "created_at", "updated_at"} then Some(TextColumn) else None
  }

  function KindOf(v: SqlValue): ColumnKind {
    if v.Str? then TextColumn else NumberColumn
  }

  /** Why the database refuses a statement: the first assignment to a column the table lacks,
      or of a value of the wrong kind. */
  function Rejection(stmt: seq<Assignment>, columns: string -> Option<ColumnKind>): (r: Option<DbError>)
    ensures r.None? <==> forall i :: 0 <= i < |stmt| ==> columns(stmt[i].column) == Some(KindOf(stmt[i].value))
  {
    if stmt == [] then None
    else
      var a := stmt[0];
      match columns(a.column)
      case None => Some(UnknownColumn(a.column))
      case Some(k) => if k != KindOf(a.value) then Some(BadValue(a.column)) else Rejection(stmt[1..], columns)
  }

  /** The assignments of a statement applied left to right; a later one to the same column wins. */
  function ApplyAll<R>(row: R, stmt: seq<Assignment>, assign: (R, Assignment) -> R): R
    decreases |stmt|
  {
    if stmt == [] then row else assign(ApplyAll(row, stmt[..|stmt| - 1], assign), stmt[|stmt| - 1])
  }

  /** The text `a` writes to `column` when it names that column, `current` otherwise. */
  function TextCell(a: Assignment, column: string, current: string): string {
    if a.column == column && a.value.Str? then a.value.s else current
  }

  /** The same for a nullable text column. */
  function NullableCell(a: Assignment, column: string, current: Option<string>): Option<string> {
    if a.column == column && a.value.Str? then Some(a.value.s) else current
  }

  /** The same for a numeric column. */
  function NumberCell(a: Assignment, column: string, current: int): int {
    if a.column == column && a.value.Num? then a.value.n else current
  }

  // One `column = ?` of an UPDATE applied to a row: the column it names takes the bound value
  // and every other column keeps its own. A column the table lacks changes nothing here; the
  // statement as a whole is refused by `Rejection` before any assignment applies.

  function SetUserColumn(row: UserRow, a: Assignment): UserRow {
    UserRow(TextCell(a, "id", row.id), NullableCell(a, "name", row.name), TextCell(a, "email", row.email),
            NullableCell(a, "password", row.password), TextCell(a, "role", row.role),
            NullableCell(a, "avatar", row.avatar), TextCell(a, "created_at", row.created_at),
            TextCell(a, "updated_at", row.updated_at))
  }

  function SetCategoryColumn(row: CategoryRow, a: Assignment): CategoryRow {
    CategoryRow(TextCell(a, "id", row.id), TextCell(a, "name", row.name),
                NullableCell(a, "description", row.description), NullableCell(a, "color", row.color),
                TextCell(a, "created_at", row.created_at), TextCell(a, "updated_at", row.updated_at))
  }

  function SetPostColumn(row: PostRow, a: Assignment): PostRow {
    PostRow(TextCell(a, "id", row.id), TextCell(a, "title", row.title),
            NullableCell(a, "content", row.content), NullableCell(a, "excerpt", row.excerpt),
            TextCell(a, "author_id", row.author_id), NullableCell(a, "category_id", row.category_id),
            TextCell(a, "status", row.status), NumberCell(a, "featured", row.featured),
            NullableCell(a, "image", row.image), TextCell(a, "tags", row.tags),
            TextCell(a, "created_at", row.created_at), TextCell(a, "updated_at", row.updated_at))
  }

  function SetCommentColumn(row: CommentRow, a: Assignment): CommentRow {
    CommentRow(TextCell(a, "id", row.id), TextCell(a, "content", row.content),
               TextCell(a, "author_id", row.author_id), TextCell(a, "post_id", row.post_id),
               NullableCell(a, "parent_id", row.parent_id), TextCell(a, "status", row.status),
               TextCell(a, "created_at", row.created_at), TextCell(a, "updated_at", row.updated_at))
  }

  function SetContactColumn(row: ContactRow, a: Assignment): ContactRow {
    ContactRow(TextCell(a, "id", row.id), TextCell(a, "name", row.name), TextCell(a, "email", row.email),
               NullableCell(a, "phone", row.phone), TextCell(a, "subject", row.subject),
               TextCell(a, "message", row.message), TextCell(a, "status", row.status),
               TextCell(a, "created_at", row.created_at), TextCell(a, "updated_at", row.updated_at))
  }

  function SetNewsletterColumn(row: NewsletterRow, a: Assignment): NewsletterRow {
    NewsletterRow(TextCell(a, "id", row.id), TextCell(a, "email", row.email),
                  NumberCell(a, "is_active", row.is_active), TextCell(a, "created_at", row.created_at),
                  TextCell(a, "updated_at", row.updated_at))
  }

  // ---------------------------------------------------------------- what an UPDATE writes

  /** The last assignment of `stmt` that satisfies `p`: under left-to-right application, the
      one whose value a column ends up with. */
  function Last(stmt: seq<Assignment>, p: Assignment -> bool): (r: Option<Assignment>)
    ensures r.Some? ==> p(r.value) && r.value in stmt
    ensures r.None? ==> forall i :: 0 <= i < |stmt| ==> !p(stmt[i])
    decreases |stmt|
  {
    if stmt == [] then None
    else if p(stmt[|stmt| - 1]) then Some(stmt[|stmt| - 1])
    else Last(stmt[..|stmt| - 1], p)
  }

  /** The last match in a concatenation is the last match of its second part, if any. */
  lemma {:induction false} LastConcat(s: seq<Assignment>, t: seq<Assignment>, p: Assignment -> bool)
    ensures Last(s + t, p) == if Last(t, p).Some? then Last(t, p) else Last(s, p)
    decreases |t|
  {
    if t == [] {
      assert s + t == s;
    } else {
      assert (s + t)[..|s + t| - 1] == s + t[..|t| - 1];
      LastConcat(s, t[..|t| - 1], p);
    }
  }

  /** Filtering out `id` and `createdAt` does not change the last assignment to a writable column. */
  lemma {:induction false} LastFields(keys: seq<Assignment>, p: Assignment -> bool)
    requires forall a :: p(a) ==> Writable(a)
    ensures Last(Fields(keys), p) == Last(keys, p)
    decreases |keys|
  {
    if keys != [] {
      var head := if Writable(keys[0]) then [keys[0]] else [];
      assert Fields(keys) == head + Fields(keys[1..]);
      assert keys == [keys[0]] + keys[1..];
      LastConcat(head, Fields(keys[1..]), p);
      LastConcat([keys[0]], keys[1..], p);
      LastFields(keys[1..], p);
    }
  }

  /** Among distinct property names, the last assignment to the column of property `k` is
      that property's own, when it is present. */
  lemma {:induction false} LastPresent(names: seq<string>, values: seq<Option<SqlValue>>, k: nat,
                                       p: Assignment -> bool)
    requires |names| == |values| && Distinct(names) && k < |names|
    requires forall a :: p(a) ==> a.column == names[k]
    ensures Last(Present(names, values), p) ==
            if values[k].Some? && p(Assignment(names[k], values[k].value))
            then Some(Assignment(names[k], values[k].value)) else None
    decreases k
  {
    var head := if values[0].Some? then [Assignment(names[0], values[0].value)] else [];
    var rest := Present(names[1..], values[1..]);
    LastConcat(head, rest, p);
    if k > 0 {
      LastPresent(names[1..], values[1..], k - 1, p);
    }
  }

  /** What the UPDATE an update object builds leaves in the column of the property at `k`,
      named `name` with value `value`: that value when present, nothing otherwise. */
  lemma LastKeyed(names: seq<string>, values: seq<Option<SqlValue>>, now: Timestamp, k: nat,
                  name: string, value: Option<SqlValue>, p: Assignment -> bool)
    requires |names| == |values| && Distinct(names) && k < |names|
    requires names[k] == name && values[k] == value
    requires name != "id" && name != "createdAt" && name != "updated_at"
    requires forall a :: p(a) ==> a.column == name
    ensures Last(Statement(Fields(Present(names, values)), now), p) ==
            if value.Some? && p(Assignment(name, value.value)) then Some(Assignment(name, value.value)) else None
    ensures value.Some? && p(Assignment(name, value.value)) ==> Fields(Present(names, values)) != []
  {
    var fields := Fields(Present(names, values));
    assert Statement(fields, now) == fields + [Assignment("updated_at", Str(now))];
    LastConcat(fields, [Assignment("updated_at", Str(now))], p);
    LastFields(Present(names, values), p);
    LastPresent(names, values, k, p);
  }

  /** The same for a column that no property names: the UPDATE leaves nothing in it. */
  lemma LastUnkeyed(names: seq<string>, values: seq<Option<SqlValue>>, now: Timestamp,
                    p: Assignment -> bool)
    requires |names| == |values|
    requires forall a :: p(a) ==> a.column !in names && a.column != "updated_at"
    ensures Last(Statement(Fields(Present(names, values)), now), p) == None
  {
    var fields := Fields(Present(names, values));
    assert Statement(fields, now) == fields + [Assignment("updated_at", Str(now))];
    LastConcat(fields, [Assignment("updated_at", Str(now))], p);
    Lists.FilterMembers(Present(names, values), Writable);
  }

  /** No statement an update builds assigns `id`: the filter drops that key. */
  lemma LastId(keys: seq<Assignment>, now: Timestamp, p: Assignment -> bool)
    requires forall a :: p(a) ==> a.column == "id"
    ensures Last(Statement(Fields(keys), now), p) == None
  {
    var fields := Fields(keys);
    assert Statement(fields, now) == fields + [Assignment("updated_at", Str(now))];
    LastConcat(fields, [Assignment("updated_at", Str(now))], p);
  }

  /** Every statement an update builds ends by stamping `updated_at`. */
  lemma LastStamp(fields: seq<Assignment>, now: Timestamp, p: Assignment -> bool)
    requires p(Assignment("updated_at", Str(now)))
    ensures Last(Statement(fields, now), p) == Some(Assignment("updated_at", Str(now)))
  {
    var stmt := Statement(fields, now);
    assert stmt[|stmt| - 1] == Assignment("updated_at", Str(now));
  }

  /** An assignment of text to `column`. */
  function TextTo(column: string): Assignment -> bool {
    (a: Assignment) => a.column == column && a.value.Str?
  }

  /** An assignment of a number to `column`. */
  function NumberTo(column: string): Assignment -> bool {
    (a: Assignment) => a.column == column && a.value.Num?
  }

  // The value one column holds after a statement, starting from `current`: the cell-by-cell
  // counterpart of `ApplyAll`.

  function TextAfter(stmt: seq<Assignment>, column: string, current: string): string
    decreases |stmt|
  {
    if stmt == [] then current
    else TextCell(stmt[|stmt| - 1], column, TextAfter(stmt[..|stmt| - 1], column, current))
  }

  function NullableAfter(stmt: seq<Assignment>, column: string, current: Option<string>): Option<string>
    decreases |stmt|
  {
    if stmt == [] then current
    else NullableCell(stmt[|stmt| - 1], column, NullableAfter(stmt[..|stmt| - 1], column, current))
  }

  function NumberAfter(stmt: seq<Assignment>, column: string, current: int): int
    decreases |stmt|
  {
    if stmt == [] then current
    else NumberCell(stmt[|stmt| - 1], column, NumberAfter(stmt[..|stmt| - 1], column, current))
  }

  /** A text column ends up with the value of the last text assignment to it. */
  lemma {:induction false} TextAfterLast(stmt: seq<Assignment>, column: string, current: string)
    ensures TextAfter(stmt, column, current) ==
            var a := Last(stmt, TextTo(column)); if a.Some? then a.value.value.s else current
    decreases |stmt|
  {
    if stmt != [] {
      TextAfterLast(stmt[..|stmt| - 1], column, current);
    }
  }

  /** A nullable text column ends up with the value of the last text assignment to it. */
  lemma {:induction false} NullableAfterLast(stmt: seq<Assignment>, column: string, current: Option<string>)
    ensures NullableAfter(stmt, column, current) ==
            var a := Last(stmt, TextTo(column)); if a.Some? then Some(a.value.value.s) else current
    decreases |stmt|
  {
    if stmt != [] {
      NullableAfterLast(stmt[..|stmt| - 1], column, current);
    }
  }

  /** A numeric column ends up with the value of the last numeric assignment to it. */
  lemma {:induction false} NumberAfterLast(stmt: seq<Assignment>, column: string, current: int)
    ensures NumberAfter(stmt, column, current) ==
            var a := Last(stmt, NumberTo(column)); if a.Some? then a.value.value.n else current
    decreases |stmt|
  {
    if stmt != [] {
      NumberAfterLast(stmt[..|stmt| - 1], column, current);
    }
  }

  // What the UPDATE built from an update object with properties `names` and `values` leaves
  // in one column of a row.

  /** A text column the object names takes the property's text when it is present. */
  lemma TextWritten(names: seq<string>, values: seq<Option<SqlValue>>, now: Timestamp, k: nat,
                    name: string, value: Option<SqlValue>, current: string)
    requires |names| == |values| && Distinct(names) && k < |names|
    requires names[k] == name && values[k] == value
    requires name != "id" && name != "createdAt" && name != "updated_at"
    ensures TextAfter(Statement(Fields(Present(names, values)), now), name, current) ==
            if value.Some? && value.value.Str? then value.value.s else current
    ensures value.Some? && value.value.Str? ==> Fields(Present(names, values)) != []
  {
    TextAfterLast(Statement(Fields(Present(names, values)), now), name, current);
    LastKeyed(names, values, now, k, name, value, TextTo(name));
  }

  /** A nullable text column the object names takes the property's text when it is present. */
  lemma NullableWritten(names: seq<string>, values: seq<Option<SqlValue>>, now: Timestamp, k: nat,
                        name: string, value: Option<SqlValue>, current: Option<string>)
    requires |names| == |values| && Distinct(names) && k < |names|
    requires names[k] == name && values[k] == value
    requires name != "id" && name != "createdAt" && name != "updated_at"
    ensures NullableAfter(Statement(Fields(Present(names, values)), now), name, current) ==
            if value.Some? && value.value.Str? then Some(value.value.s) else current
    ensures value.Some? && value.value.Str? ==> Fields(Present(names, values)) != []
  {
    NullableAfterLast(Statement(Fields(Present(names, values)), now), name, current);
    LastKeyed(names, values, now, k, name, value, TextTo(name));
  }

  /** A numeric column the object names takes the property's number when it is present. */
  lemma NumberWritten(names: seq<string>, values: seq<Option<SqlValue>>, now: Timestamp, k: nat,
                      name: string, value: Option<SqlValue>, current: int)
    requires |names| == |values| && Distinct(names) && k < |names|
    requires names[k] == name && values[k] == value
    requires name != "id" && name != "createdAt" && name != "updated_at"
    ensures NumberAfter(Statement(Fields(Present(names, values)), now), name, current) ==
            if value.Some? && value.value.Num? then value.value.n else current
    ensures value.Some? && value.value.Num? ==> Fields(Present(names, values)) != []
  {
    NumberAfterLast(Statement(Fields(Present(names, values)), now), name, current);
    LastKeyed(names, values, now, k, name, value, NumberTo(name));
  }

  /** A text column the object does not name keeps its value. */
  lemma TextKept(names: seq<string>, values: seq<Option<SqlValue>>, now: Timestamp, column: string,
                 current: string)
    requires |names| == |values| && column !in names && column != "updated_at"
    ensures TextAfter(Statement(Fields(Present(names, values)), now), column, current) == current
  {
    TextAfterLast(Statement(Fields(Present(names, values)), now), column, current);
    LastUnkeyed(names, values, now, TextTo(column));
  }

  /** A nullable text column the object does not name keeps its value. */
  lemma NullableKept(names: seq<string>, values: seq<Option<SqlValue>>, now: Timestamp,
                     column: string, current: Option<string>)
    requires |names| == |values| && column !in names && column != "updated_at"
    ensures NullableAfter(Statement(Fields(Present(names, values)), now), column, current) == current
  {
    NullableAfterLast(Statement(Fields(Present(names, values)), now), column, current);
    LastUnkeyed(names, values, now, TextTo(column));
  }

  /** A numeric column the object does not name keeps its value. */
  lemma NumberKept(names: seq<string>, values: seq<Option<SqlValue>>, now: Timestamp,
                   column: string, current: int)
    requires |names| == |values| && column !in names && column != "updated_at"
    ensures NumberAfter(Statement(Fields(Present(names, values)), now), column, current) == current
  {
    NumberAfterLast(Statement(Fields(Present(names, values)), now), column, current);
    LastUnkeyed(names, values, now, NumberTo(column));
  }

  /** The identity columns: `id` keeps its value, whatever the object names, and `updated_at`
      takes the clock reading. */
  lemma IdentityStamped(keys: seq<Assignment>, now: Timestamp, id: Id, updated: Timestamp)
    ensures TextAfter(Statement(Fields(keys), now), "id", id) == id
    ensures TextAfter(Statement(Fields(keys), now), "updated_at", updated) == now
  {
    TextAfterLast(Statement(Fields(keys), now), "id", id);
    LastId(keys, now, TextTo("id"));
    TextAfterLast(Statement(Fields(keys), now), "updated_at", updated);
    LastStamp(Fields(keys), now, TextTo("updated_at"));
  }

  /** Applying a statement to a user row sets each column to the last value assigned to it. */
  lemma {:induction false} ApplyAllUserColumns(row: UserRow, stmt: seq<Assignment>)
    ensures ApplyAll(row, stmt, SetUserColumn) ==
            UserRow(
              TextAfter(stmt, "id", row.id),
              NullableAfter(stmt, "name", row.name),
              TextAfter(stmt, "email", row.email),
              NullableAfter(stmt, "password", row.password),
              TextAfter(stmt, "role", row.role),
              NullableAfter(stmt, "avatar", row.avatar),
              TextAfter(stmt, "created_at", row.created_at),
              TextAfter(stmt, "updated_at", row.updated_at))
    decreases |stmt|
  {
    if stmt != [] {
      ApplyAllUserColumns(row, stmt[..|stmt| - 1]);
    }
  }

  /** A user update writes the e-mail, name and role it carries, the role in its stored
      spelling, and stamps `updated_at`; every other column keeps its value. */
  lemma UserUpdateWrites(row: UserRow, p: UserPatch, now: Timestamp)
    ensures ApplyAll(row, Statement(Fields(UserKeys(p)), now), SetUserColumn) ==
            row.(name := OrElse(p.name, row.name),
               email := GetOr(p.email, row.email),
               role := if p.role.Some? then RoleToDb(p.role.value) else row.role,
               updated_at := now)
    ensures (p.email.Some? || p.name.Some? || p.role.Some?) ==> Fields(UserKeys(p)) != []
  {
    var names, values := UserKeyNames, UserValues(p);
    ApplyAllUserColumns(row, Statement(Fields(UserKeys(p)), now));
    UserKeyNamesDistinct();
    UserKeysAt(p);
    IdentityStamped(UserKeys(p), now, row.id, row.updated_at);
    NullableWritten(names, values, now, 2, "name", values[2], row.name);
    TextWritten(names, values, now, 1, "email", values[1], row.email);
    NullableKept(names, values, now, "password", row.password);
    TextWritten(names, values, now, 4, "role", values[4], row.role);
    NullableKept(names, values, now, "avatar", row.avatar);
    TextKept(names, values, now, "created_at", row.created_at);
  }

  /** Applying a statement to a category row sets each column to the last value assigned to it. */
  lemma {:induction false} ApplyAllCategoryColumns(row: CategoryRow, stmt: seq<Assignment>)
    ensures ApplyAll(row, stmt, SetCategoryColumn) ==
            CategoryRow(
              TextAfter(stmt, "id", row.id),
              TextAfter(stmt, "name", row.name),
              NullableAfter(stmt, "description", row.description),
              NullableAfter(stmt, "color", row.color),
              TextAfter(stmt, "created_at", row.created_at),
              TextAfter(stmt, "updated_at", row.updated_at))
    decreases |stmt|
  {
    if stmt != [] {
      ApplyAllCategoryColumns(row, stmt[..|stmt| - 1]);
    }
  }

  /** A category update writes the name, description and colour it carries and stamps
      `updated_at`; the slug is not a column, and every other column keeps its value. */
  lemma CategoryUpdateWrites(row: CategoryRow, p: CategoryPatch, now: Timestamp)
    ensures ApplyAll(row, Statement(Fields(CategoryKeys(p)), now), SetCategoryColumn) ==
            row.(name := GetOr(p.name, row.name),
               description := OrElse(p.description, row.description),
               color := OrElse(p.color, row.color),
               updated_at := now)
    ensures (p.name.Some? || p.description.Some? || p.color.Some?) ==> Fields(CategoryKeys(p)) != []
  {
    var names, values := CategoryKeyNames, CategoryValues(p);
    ApplyAllCategoryColumns(row, Statement(Fields(CategoryKeys(p)), now));
    CategoryKeyNamesDistinct();
    CategoryKeysAt(p);
    IdentityStamped(CategoryKeys(p), now, row.id, row.updated_at);
    TextWritten(names, values, now, 1, "name", values[1], row.name);
    NullableWritten(names, values, now, 2, "description", values[2], row.description);
    NullableWritten(names, values, now, 3, "color", values[3], row.color);
    TextKept(names, values, now, "created_at", row.created_at);
  }

  /** Applying a statement to a post row sets each column to the last value assigned to it. */
  lemma {:induction false} ApplyAllPostColumns(row: PostRow, stmt: seq<Assignment>)
    ensures ApplyAll(row, stmt, SetPostColumn) ==
            PostRow(
              TextAfter(stmt, "id", row.id),
              TextAfter(stmt, "title", row.title),
              NullableAfter(stmt, "content", row.content),
              NullableAfter(stmt, "excerpt", row.excerpt),
              TextAfter(stmt, "author_id", row.author_id),
              NullableAfter(stmt, "category_id", row.category_id),
              TextAfter(stmt, "status", row.status),
              NumberAfter(stmt, "featured", row.featured),
              NullableAfter(stmt, "image", row.image),
              TextAfter(stmt, "tags", row.tags),
              TextAfter(stmt, "created_at", row.created_at),
              TextAfter(stmt, "updated_at", row.updated_at))
    decreases |stmt|
  {
    if stmt != [] {
      ApplyAllPostColumns(row, stmt[..|stmt| - 1]);
    }
  }

  /** A post update writes the title, content, excerpt and status it carries, the status in
      its stored spelling, and the first of a non-empty category list as `category_id`, and
      stamps `updated_at`; every other column keeps its value. */
  lemma PostUpdateWrites(row: PostRow, p: PostPatch, now: Timestamp)
    ensures ApplyAll(row, Statement(Fields(PostKeys(p)), now), SetPostColumn) ==
            row.(title := GetOr(p.title, row.title),
               content := OrElse(p.content, row.content),
               excerpt := OrElse(p.excerpt, row.excerpt),
               category_id := OrElse(CategoryIdOf(p), row.category_id),
               status := if p.status.Some? then PostStatusToDb(p.status.value) else row.status,
               updated_at := now)
    ensures (p.title.Some? || p.content.Some? || p.excerpt.Some? || p.status.Some? ||
             CategoryIdOf(p).Some?) ==> Fields(PostKeys(p)) != []
  {
    var names, values := PostKeyNames, PostValues(p);
    ApplyAllPostColumns(row, Statement(Fields(PostKeys(p)), now));
    PostKeyNamesDistinct();
    PostKeysAt(p);
    IdentityStamped(PostKeys(p), now, row.id, row.updated_at);
    TextWritten(names, values, now, 1, "title", values[1], row.title);
    NullableWritten(names, values, now, 2, "content", values[2], row.content);
    NullableWritten(names, values, now, 3, "excerpt", values[3], row.excerpt);
    TextKept(names, values, now, "author_id", row.author_id);
    NullableWritten(names, values, now, 8, "category_id", values[8], row.category_id);
    TextWritten(names, values, now, 4, "status", values[4], row.status);
    NumberKept(names, values, now, "featured", row.featured);
    NullableKept(names, values, now, "image", row.image);
    TextKept(names, values, now, "tags", row.tags);
    TextKept(names, values, now, "created_at", row.created_at);
  }

  /** Applying a statement to a comment row sets each column to the last value assigned to it. */
  lemma {:induction false} ApplyAllCommentColumns(row: CommentRow, stmt: seq<Assignment>)
    ensures ApplyAll(row, stmt, SetCommentColumn) ==
            CommentRow(
              TextAfter(stmt, "id", row.id),
              TextAfter(stmt, "content", row.content),
              TextAfter(stmt, "author_id", row.author_id),
              TextAfter(stmt, "post_id", row.post_id),
              NullableAfter(stmt, "parent_id", row.parent_id),
              TextAfter(stmt, "status", row.status),
              TextAfter(stmt, "created_at", row.created_at),
              TextAfter(stmt, "updated_at", row.updated_at))
    decreases |stmt|
  {
    if stmt != [] {
      ApplyAllCommentColumns(row, stmt[..|stmt| - 1]);
    }
  }

  /** A comment update writes the content it carries and stamps `updated_at`; every other
      column keeps its value. */
  lemma CommentUpdateWrites(row: CommentRow, p: CommentPatch, now: Timestamp)
    ensures ApplyAll(row, Statement(Fields(CommentKeys(p)), now), SetCommentColumn) ==
            row.(content := GetOr(p.content, row.content),
               updated_at := now)
    ensures p.content.Some? ==> Fields(CommentKeys(p)) != []
  {
    var names, values := CommentKeyNames, CommentValues(p);
    ApplyAllCommentColumns(row, Statement(Fields(CommentKeys(p)), now));
    CommentKeyNamesDistinct();
    CommentKeysAt(p);
    IdentityStamped(CommentKeys(p), now, row.id, row.updated_at);
    TextWritten(names, values, now, 1, "content", values[1], row.content);
    TextKept(names, values, now, "author_id", row.author_id);
    TextKept(names, values, now, "post_id", row.post_id);
    NullableKept(names, values, now, "parent_id", row.parent_id);
    TextKept(names, values, now, "status", row.status);
    TextKept(names, values, now, "created_at", row.created_at);
  }

  /** Applying a statement to a contact row sets each column to the last value assigned to it. */
  lemma {:induction false} ApplyAllContactColumns(row: ContactRow, stmt: seq<Assignment>)
    ensures ApplyAll(row, stmt, SetContactColumn) ==
            ContactRow(
              TextAfter(stmt, "id", row.id),
              TextAfter(stmt, "name", row.name),
              TextAfter(stmt, "email", row.email),
              NullableAfter(stmt, "phone", row.phone),
              TextAfter(stmt, "subject", row.subject),
              TextAfter(stmt, "message", row.message),
              TextAfter(stmt, "status", row.status),
              TextAfter(stmt, "created_at", row.created_at),
              TextAfter(stmt, "updated_at", row.updated_at))
    decreases |stmt|
  {
    if stmt != [] {
      ApplyAllContactColumns(row, stmt[..|stmt| - 1]);
    }
  }

  /** A contact update writes the fields it carries, the status in its stored spelling, and
      stamps `updated_at`; every other column keeps its value. */
  lemma ContactUpdateWrites(row: ContactRow, p: ContactPatch, now: Timestamp)
    ensures ApplyAll(row, Statement(Fields(ContactKeys(p)), now), SetContactColumn) ==
            row.(name := GetOr(p.name, row.name),
               email := GetOr(p.email, row.email),
               phone := OrElse(p.phone, row.phone),
               subject := GetOr(p.subject, row.subject),
               message := GetOr(p.message, row.message),
               status := if p.status.Some? then ContactStatusToDb(p.status.value) else row.status,
               updated_at := now)
    ensures (p.name.Some? || p.email.Some? || p.phone.Some? || p.subject.Some? || p.message.Some? ||
              p.status.Some?) ==> Fields(ContactKeys(p)) != []
  {
    var names, values := ContactKeyNames, ContactValues(p);
    ApplyAllContactColumns(row, Statement(Fields(ContactKeys(p)), now));
    ContactKeyNamesDistinct();
    ContactKeysAt(p);
    IdentityStamped(ContactKeys(p), now, row.id, row.updated_at);
    TextWritten(names, values, now, 1, "name", values[1], row.name);
    TextWritten(names, values, now, 2, "email", values[2], row.email);
    NullableWritten(names, values, now, 3, "phone", values[3], row.phone);
    TextWritten(names, values, now, 4, "subject", values[4], row.subject);
    TextWritten(names, values, now, 5, "message", values[5], row.message);
    TextWritten(names, values, now, 6, "status", values[6], row.status);
    TextKept(names, values, now, "created_at", row.created_at);
  }

  /** Applying a statement to a newsletter row sets each column to the last value assigned to it. */
  lemma {:induction false} ApplyAllNewsletterColumns(row: NewsletterRow, stmt: seq<Assignment>)
    ensures ApplyAll(row, stmt, SetNewsletterColumn) ==
            NewsletterRow(
              TextAfter(stmt, "id", row.id),
              TextAfter(stmt, "email", row.email),
              NumberAfter(stmt, "is_active", row.is_active),
              TextAfter(stmt, "created_at", row.created_at),
              TextAfter(stmt, "updated_at", row.updated_at))
    decreases |stmt|
  {
    if stmt != [] {
      ApplyAllNewsletterColumns(row, stmt[..|stmt| - 1]);
    }
  }

  /** A newsletter update writes the e-mail it carries and `is_active` as 1 or 0, and stamps
      `updated_at`; every other column keeps its value. */
  lemma NewsletterUpdateWrites(row: NewsletterRow, p: NewsletterPatch, now: Timestamp)
    ensures ApplyAll(row, Statement(Fields(NewsletterKeys(p)), now), SetNewsletterColumn) ==
            row.(email := GetOr(p.email, row.email),
               is_active := if p.isActive.Some? then ActiveToDb(p.isActive.value) else row.is_active,
               updated_at := now)
    ensures (p.email.Some? || p.isActive.Some?) ==> Fields(NewsletterKeys(p)) != []
  {
    var names, values := NewsletterKeyNames, NewsletterValues(p);
    ApplyAllNewsletterColumns(row, Statement(Fields(NewsletterKeys(p)), now));
    NewsletterKeyNamesDistinct();
    NewsletterKeysAt(p);
    IdentityStamped(NewsletterKeys(p), now, row.id, row.updated_at);
    TextWritten(names, values, now, 1, "email", values[1], row.email);
    NumberWritten(names, values, now, 5, "is_active", values[5], row.is_active);
    TextKept(names, values, now, "created_at", row.created_at);
  }
  /** What reading a user row back gives after an accepted update: the e-mail, name and role it
      carries written (a MODERATOR reads back as a USER), and `updatedAt` the clock reading. */
  lemma UserUpdateDecodes(row: UserRow, p: UserPatch, now: Timestamp)
    ensures var b := UserFromRow(row);
            UserFromRow(ApplyAll(row, Statement(Fields(UserKeys(p)), now), SetUserColumn)) ==
            b.(email := GetOr(p.email, b.email),
               name := OrElse(p.name, b.name),
               role := if p.role.Some? then (if p.role.value == MODERATOR then USER else p.role.value) else b.role,
               updatedAt := now)
  {
    UserUpdateWrites(row, p, now);
  }

  /** What reading a category row back gives after an accepted update: the name, description and
      colour it carries written and the slug derived from the name, and `updatedAt` the clock
      reading. */
  lemma CategoryUpdateDecodes(row: CategoryRow, p: CategoryPatch, now: Timestamp)
    ensures var b := CategoryFromRow(row);
            CategoryFromRow(ApplyAll(row, Statement(Fields(CategoryKeys(p)), now), SetCategoryColumn)) ==
            b.(name := GetOr(p.name, b.name),
               slug := Text.Slugify(GetOr(p.name, b.name)),
               description := OrElse(p.description, b.description),
               color := OrElse(p.color, b.color),
               updatedAt := now)
  {
    CategoryUpdateWrites(row, p, now);
  }

  /** What reading a post row back gives after an accepted update: the title, content, excerpt and
      status it carries written, the slug derived from the title, `publishedAt` following the
      status, and the first given category as the only one, and `updatedAt` the clock reading. */
  lemma PostUpdateDecodes(row: PostRow, p: PostPatch, now: Timestamp)
    ensures var b := PostFromRow(row);
            PostFromRow(ApplyAll(row, Statement(Fields(PostKeys(p)), now), SetPostColumn)) ==
            b.(title := GetOr(p.title, b.title),
               content := OrElse(p.content, b.content),
               excerpt := OrElse(p.excerpt, b.excerpt),
               slug := Text.Slugify(GetOr(p.title, b.title)),
               status := GetOr(p.status, b.status),
               publishedAt := if GetOr(p.status, b.status) == PUBLISHED then Some(now) else None,
               categories := if CategoryIdOf(p).Some? then [CategoryIdOf(p).value] else b.categories,
               updatedAt := now)
  {
    PostUpdateWrites(row, p, now);
  }

  /** What reading a comment row back gives after an accepted update: the content it carries
      written, and `updatedAt` the clock reading. */
  lemma CommentUpdateDecodes(row: CommentRow, p: CommentPatch, now: Timestamp)
    ensures var b := CommentFromRow(row);
            CommentFromRow(ApplyAll(row, Statement(Fields(CommentKeys(p)), now), SetCommentColumn)) ==
            b.(content := GetOr(p.content, b.content),
               updatedAt := now)
  {
    CommentUpdateWrites(row, p, now);
  }

  /** What reading a contact row back gives after an accepted update: the fields it carries written
      (an empty phone reads back as none), and `updatedAt` the clock reading. */
  lemma ContactUpdateDecodes(row: ContactRow, p: ContactPatch, now: Timestamp)
    ensures var b := ContactFromRow(row);
            ContactFromRow(ApplyAll(row, Statement(Fields(ContactKeys(p)), now), SetContactColumn)) ==
            b.(name := GetOr(p.name, b.name),
               email := GetOr(p.email, b.email),
               phone := if p.phone.Some? then Truthy(p.phone) else b.phone,
               subject := GetOr(p.subject, b.subject),
               message := GetOr(p.message, b.message),
               status := GetOr(p.status, b.status),
               updatedAt := now)
  {
    ContactUpdateWrites(row, p, now);
  }

  /** What reading a newsletter subscription row back gives after an accepted update: the e-mail and
      active flag it carries written, and `updatedAt` the clock reading. */
  lemma NewsletterUpdateDecodes(row: NewsletterRow, p: NewsletterPatch, now: Timestamp)
    ensures var b := NewsletterFromRow(row);
            NewsletterFromRow(ApplyAll(row, Statement(Fields(NewsletterKeys(p)), now), SetNewsletterColumn)) ==
            b.(email := GetOr(p.email, b.email),
               isActive := GetOr(p.isActive, b.isActive),
               updatedAt := now)
  {
    NewsletterUpdateWrites(row, p, now);
  }
}

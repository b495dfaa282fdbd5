/** The fallback store behind src/lib/storage.ts. That file only forwards each call to an HTTP
    API, so the store is modelled as the collections that API keeps, one per entity kind, with
    the operations storage.ts defines. */
module Fallback {
  import opened Wrappers
  import opened Entities
  import opened Lists

  function UserId(u: User): Id { u.id }
  function PostId(p: Post): Id { p.id }
  function PostSlug(p: Post): string { p.slug }
  function CategoryId(c: Category): Id { c.id }
  function CommentId(c: Comment): Id { c.id }
  function ContactId(c: Contact): Id { c.id }

  /** The first element carrying `id` replaced by `f` of itself; nothing changes when none does. */
  function UpdateFirst<T>(s: seq<T>, id: Id, key: T -> Id, f: T -> T): (r: seq<T>)
    ensures |r| == |s|
    ensures !Taken(s, id, key) ==> r == s
    ensures Taken(s, id, key) ==>
              var k := FirstIndex(s, HasKey(key, id)); k < |s| && r == s[k := f(s[k])]
  {
    var k := FirstIndex(s, HasKey(key, id));
    if k < |s| then s[k := f(s[k])] else s
  }

  /** Every element carrying `id` removed; reports whether there was one. */
  function RemoveAll<T>(s: seq<T>, id: Id, key: T -> Id): (r: (seq<T>, bool))
    ensures r.1 <==> Taken(s, id, key)
    ensures !Taken(r.0, id, key)
    ensures forall i :: 0 <= i < |s| && key(s[i]) != id ==> s[i] in r.0
    ensures forall i :: 0 <= i < |r.0| ==> r.0[i] in s && key(r.0[i]) != id
  {
    var kept := Filter(s, (x: T) => key(x) != id);
    FilterMembers(s, (x: T) => key(x) != id);
    (kept, |kept| < |s|)
  }

  /** A `PUT` body merged into a user: the fields it carries replace the stored ones; the id
      and the creation time are not part of the body and stay. */
  function MergeUser(u: User, p: UserPatch): (r: User)
    ensures r.id == u.id && r.createdAt == u.createdAt
    ensures r.email == if p.email.Some? then p.email.value else u.email
    ensures r.name == if p.name.Some? then p.name else u.name
    ensures r.phone == if p.phone.Some? then p.phone else u.phone
    ensures r.role == if p.role.Some? then p.role.value else u.role
    ensures r.updatedAt == if p.updatedAt.Some? then p.updatedAt.value else u.updatedAt
  {
    u.(email := GetOr(p.email, u.email),
       name := OrElse(p.name, u.name),
       phone := OrElse(p.phone, u.phone),
       role := GetOr(p.role, u.role),
       updatedAt := GetOr(p.updatedAt, u.updatedAt))
  }

  function MergeUserWith(p: UserPatch): User -> User { (u: User) => MergeUser(u, p) }

  /** A `PUT` body merged into a post; the id and the creation time stay. */
  function MergePost(q: Post, p: PostPatch): (r: Post)
    ensures r.id == q.id && r.createdAt == q.createdAt
    ensures r.title == if p.title.Some? then p.title.value else q.title
    ensures r.content == if p.content.Some? then p.content else q.content
    ensures r.excerpt == if p.excerpt.Some? then p.excerpt else q.excerpt
    ensures r.slug == if p.slug.Some? then p.slug.value else q.slug
    ensures r.status == if p.status.Some? then p.status.value else q.status
    ensures r.publishedAt == if p.publishedAt.Some? then p.publishedAt else q.publishedAt
    ensures r.updatedAt == if p.updatedAt.Some? then p.updatedAt.value else q.updatedAt
    ensures r.authorId == if p.authorId.Some? then p.authorId.value else q.authorId
    ensures r.categories == if p.categories.Some? then p.categories.value else q.categories
  {
    q.(title := GetOr(p.title, q.title),
       content := OrElse(p.content, q.content),
       excerpt := OrElse(p.excerpt, q.excerpt),
       slug := GetOr(p.slug, q.slug),
       status := GetOr(p.status, q.status),
       publishedAt := OrElse(p.publishedAt, q.publishedAt),
       updatedAt := GetOr(p.updatedAt, q.updatedAt),
       authorId := GetOr(p.authorId, q.authorId),
       categories := GetOr(p.categories, q.categories))
  }

  function MergePostWith(p: PostPatch): Post -> Post { (q: Post) => MergePost(q, p) }

  /** A `PUT` body merged into a category; the id and the creation time stay. */
  function MergeCategory(c: Category, p: CategoryPatch): (r: Category)
    ensures r.id == c.id && r.createdAt == c.createdAt
    ensures r.name == if p.name.Some? then p.name.value else c.name
    ensures r.slug == if p.slug.Some? then p.slug.value else c.slug
    ensures r.description == if p.description.Some? then p.description else c.description
    ensures r.color == if p.color.Some? then p.color else c.color
    ensures r.updatedAt == if p.updatedAt.Some? then p.updatedAt.value else c.updatedAt
  {
    c.(name := GetOr(p.name, c.name),
       slug := GetOr(p.slug, c.slug),
       description := OrElse(p.description, c.description),
       color := OrElse(p.color, c.color),
       updatedAt := GetOr(p.updatedAt, c.updatedAt))
  }

  function MergeCategoryWith(p: CategoryPatch): Category -> Category { (c: Category) => MergeCategory(c, p) }

  /** The found element with `f` applied, as the `PUT` answers it; null when there is none. */
  function Answer<T>(found: Option<T>, f: T -> T): Option<T> {
    if found.Some? then Some(f(found.value)) else None
  }

  class FallbackStore {
    var users: seq<User>
    var posts: seq<Post>
    var categories: seq<Category>
    var comments: seq<Comment>
    var contacts: seq<Contact>
    var newsletters: seq<Newsletter>

    constructor (initial: Snapshot)
      ensures Contents() == initial
    {
      users, posts, categories := initial.users, initial.posts, initial.categories;
      comments, contacts, newsletters := initial.comments, initial.contacts, initial.newsletters;
    }

    /** All collections at once: what `exportData` serialises. */
    function Contents(): Snapshot
      reads this
    {
      Snapshot(users, posts, categories, comments, contacts, newsletters)
    }

    /** `getUserById`: the user with the id, or null (the request fails with a not-found). */
    function GetUserById(id: Id): (r: Option<User>)
      reads this
      ensures r.None? <==> !Taken(users, id, UserId)
      ensures r.Some? ==> r.value.id == id && r.value in users
    {
      Find(users, HasKey(UserId, id))
    }

    method CreateUser(d: UserDraft, s: Stamp) returns (u: User)
      modifies this`users
      ensures u == CreatedUser(d, s) && users == old(users) + [u]
    {
      u := CreatedUser(d, s);
      users := users + [u];
    }

    /** `updateUser`: the stored user with the id gets the given fields and is returned; null
        when there is no such user. */
    method UpdateUser(id: Id, p: UserPatch) returns (r: Option<User>)
      modifies this`users
      ensures r == Answer(old(GetUserById(id)), MergeUserWith(p))
      ensures users == UpdateFirst(old(users), id, UserId, MergeUserWith(p))
    {
      r := Answer(GetUserById(id), MergeUserWith(p));
      users := UpdateFirst(users, id, UserId, MergeUserWith(p));
    }

    /** `deleteUser`: true when the user existed and is gone. */
    method DeleteUser(id: Id) returns (removed: bool)
      modifies this`users
      ensures removed <==> old(GetUserById(id)).Some?
      ensures users == RemoveAll(old(users), id, UserId).0
    {
      var (kept, hit) := RemoveAll(users, id, UserId);
      users, removed := kept, hit;
    }

    function GetPostById(id: Id): (r: Option<Post>)
      reads this
      ensures r.None? <==> !Taken(posts, id, PostId)
      ensures r.Some? ==> r.value.id == id && r.value in posts
    {
      Find(posts, HasKey(PostId, id))
    }

    function GetPostBySlug(slug: string): (r: Option<Post>)
      reads this
      ensures r.None? <==> !Taken(posts, slug, PostSlug)
      ensures r.Some? ==> r.value.slug == slug && r.value in posts
    {
      Find(posts, HasKey(PostSlug, slug))
    }

    method CreatePost(d: PostDraft, s: Stamp) returns (q: Post)
      modifies this`posts
      ensures q == CreatedPost(d, s) && posts == old(posts) + [q]
    {
      q := CreatedPost(d, s);
      posts := posts + [q];
    }

    method UpdatePost(id: Id, p: PostPatch) returns (r: Option<Post>)
      modifies this`posts
      ensures r == Answer(old(GetPostById(id)), MergePostWith(p))
      ensures posts == UpdateFirst(old(posts), id, PostId, MergePostWith(p))
    {
      r := Answer(GetPostById(id), MergePostWith(p));
      posts := UpdateFirst(posts, id, PostId, MergePostWith(p));
    }

    method DeletePost(id: Id) returns (removed: bool)
      modifies this`posts
      ensures removed <==> old(GetPostById(id)).Some?
      ensures posts == RemoveAll(old(posts), id, PostId).0
    {
      var (kept, hit) := RemoveAll(posts, id, PostId);
      posts, removed := kept, hit;
    }

    function GetCategoryById(id: Id): (r: Option<Category>)
      reads this
      ensures r.None? <==> !Taken(categories, id, CategoryId)
      ensures r.Some? ==> r.value.id == id && r.value in categories
    {
      Find(categories, HasKey(CategoryId, id))
    }

    method CreateCategory(d: CategoryDraft, s: Stamp) returns (c: Category)
      modifies this`categories
      ensures c == CreatedCategory(d, s) && categories == old(categories) + [c]
    {
      c := CreatedCategory(d, s);
      categories := categories + [c];
    }

    method UpdateCategory(id: Id, p: CategoryPatch) returns (r: Option<Category>)
      modifies this`categories
      ensures r == Answer(old(GetCategoryById(id)), MergeCategoryWith(p))
      ensures categories == UpdateFirst(old(categories), id, CategoryId, MergeCategoryWith(p))
    {
      r := Answer(GetCategoryById(id), MergeCategoryWith(p));
      categories := UpdateFirst(categories, id, CategoryId, MergeCategoryWith(p));
    }

    method DeleteCategory(id: Id) returns (removed: bool)
      modifies this`categories
      ensures removed <==> old(GetCategoryById(id)).Some?
      ensures categories == RemoveAll(old(categories), id, CategoryId).0
    {
      var (kept, hit) := RemoveAll(categories, id, CategoryId);
      categories, removed := kept, hit;
    }

    /** `getCommentsByPostId`: the comments of that post, in order. */
    function GetCommentsByPostId(postId: Id): (r: seq<Comment>)
      reads this
      ensures forall i :: 0 <= i < |r| ==> r[i].postId == postId && r[i] in comments
      ensures forall i :: 0 <= i < |comments| && comments[i].postId == postId ==> comments[i] in r
    {
      FilterMembers(comments, (c: Comment) => c.postId == postId);
      Filter(comments, (c: Comment) => c.postId == postId)
    }

    method CreateComment(d: CommentDraft, s: Stamp) returns (c: Comment)
      modifies this`comments
      ensures c == CreatedComment(d, s) && comments == old(comments) + [c]
    {
      c := CreatedComment(d, s);
      comments := comments + [c];
    }

    method DeleteComment(id: Id) returns (removed: bool)
      modifies this`comments
      ensures removed <==> Taken(old(comments), id, CommentId)
      ensures comments == RemoveAll(old(comments), id, CommentId).0
    {
      var (kept, hit) := RemoveAll(comments, id, CommentId);
      comments, removed := kept, hit;
    }

    method CreateContact(d: ContactDraft, s: Stamp) returns (c: Contact)
      modifies this`contacts
      ensures c == CreatedContact(d, s) && contacts == old(contacts) + [c]
    {
      c := CreatedContact(d, s);
      contacts := contacts + [c];
    }

    method DeleteContact(id: Id) returns (removed: bool)
      modifies this`contacts
      ensures removed <==> Taken(old(contacts), id, ContactId)
      ensures contacts == RemoveAll(old(contacts), id, ContactId).0
    {
      var (kept, hit) := RemoveAll(contacts, id, ContactId);
      contacts, removed := kept, hit;
    }

    /** `clearAllData`: every collection emptied. */
    method ClearAllData()
      modifies this
      ensures Contents() == EmptySnapshot
    {
      users, posts, categories, comments, contacts, newsletters := [], [], [], [], [], [];
    }

    /** `initializeSampleData`: the API installs its sample records, given here as `sample`. */
    method InitializeSampleData(sample: Snapshot)
      modifies this
      ensures Contents() == sample
    {
      users, posts, categories := sample.users, sample.posts, sample.categories;
      comments, contacts, newsletters := sample.comments, sample.contacts, sample.newsletters;
    }
  }
}

/** The canonical entity shapes the persistence layer hands to the UI (the interfaces of
    src/lib/storage.ts), the inputs of the create operations and the `Partial<>` updates. */
module Entities {
  import opened Wrappers

  type Id = string
  /** A timestamp as `Date.prototype.toISOString` writes it. */
  type Timestamp = string

  datatype Role = USER | ADMIN | MODERATOR
  datatype PostStatus = DRAFT | PUBLISHED | ARCHIVED
  datatype ContactStatus = PENDING | REVIEWED | RESPONDED | CLOSED

  datatype User = User(
    id: Id, email: string, name: Option<string>, phone: Option<string>, role: Role,
    createdAt: Timestamp, updatedAt: Timestamp)

  datatype Post = Post(
    id: Id, title: string, content: Option<string>, excerpt: Option<string>, slug: string,
    status: PostStatus, publishedAt: Option<Timestamp>, createdAt: Timestamp,
    updatedAt: Timestamp, authorId: Id, categories: seq<Id>)

  datatype Category = Category(
    id: Id, name: string, slug: string, description: Option<string>, color: Option<string>,
    createdAt: Timestamp, updatedAt: Timestamp)

  datatype Comment = Comment(
    id: Id, content: string, createdAt: Timestamp, updatedAt: Timestamp, authorId: Id, postId: Id)

  datatype Contact = Contact(
    id: Id, name: string, email: string, phone: Option<string>, subject: string,
    message: string, status: ContactStatus, createdAt: Timestamp, updatedAt: Timestamp)

  datatype Newsletter = Newsletter(
    id: Id, email: string, name: Option<string>, isActive: bool,
    createdAt: Timestamp, updatedAt: Timestamp)

  /** The identifier and the clock reading a create operation draws
      (`crypto.randomUUID()` and `new Date()`). */
  datatype Stamp = Stamp(id: Id, now: Timestamp)

  /** `Omit<User, 'id' | 'createdAt' | 'updatedAt'> & { password: string; avatar?: string }`.
      The password is optional here because the migration passes exported users, which have none. */
  datatype UserDraft = UserDraft(
    email: string, name: Option<string>, phone: Option<string>, role: Role,
    password: Option<string>, avatar: Option<string>)

  datatype PostDraft = PostDraft(
    title: string, content: Option<string>, excerpt: Option<string>, slug: string,
    status: PostStatus, publishedAt: Option<Timestamp>, authorId: Id, categories: seq<Id>)

  datatype CategoryDraft = CategoryDraft(
    name: string, slug: string, description: Option<string>, color: Option<string>)

  datatype CommentDraft = CommentDraft(content: string, authorId: Id, postId: Id)

  datatype ContactDraft = ContactDraft(
    name: string, email: string, phone: Option<string>, subject: string, message: string,
    status: ContactStatus)

  datatype NewsletterDraft = NewsletterDraft(email: string, name: Option<string>, isActive: bool)

  // What each create operation returns: the input with the fresh id and timestamps.

  /** What `createUser` returns: the input echoed back, role and phone included. */
  function CreatedUser(d: UserDraft, s: Stamp): User {
    User(s.id, d.email, d.name, d.phone, d.role, s.now, s.now)
  }

  /** What `createCategory` returns: the slug is the one passed in. */
  function CreatedCategory(d: CategoryDraft, s: Stamp): Category {
    Category(s.id, d.name, d.slug, d.description, d.color, s.now, s.now)
  }

  /** What `createPost` returns: slug, status, publishedAt and categories echoed from the input. */
  function CreatedPost(d: PostDraft, s: Stamp): Post {
    Post(s.id, d.title, d.content, d.excerpt, d.slug, d.status, d.publishedAt, s.now, s.now,
         d.authorId, d.categories)
  }

  function CreatedComment(d: CommentDraft, s: Stamp): Comment {
    Comment(s.id, d.content, s.now, s.now, d.authorId, d.postId)
  }

  function CreatedContact(d: ContactDraft, s: Stamp): Contact {
    Contact(s.id, d.name, d.email, d.phone, d.subject, d.message, d.status, s.now, s.now)
  }

  /** What `createNewsletter` returns: the name is not part of it. */
  function CreatedNewsletter(d: NewsletterDraft, s: Stamp): Newsletter {
    Newsletter(s.id, d.email, None, d.isActive, s.now, s.now)
  }

  /** What a create call reads from a whole exported record: everything but the identifier
      and the two timestamps, which it replaces with fresh ones. */
  function UserDraftOf(u: User): UserDraft {
    UserDraft(u.email, u.name, u.phone, u.role, None, None)
  }

  function PostDraftOf(p: Post): PostDraft {
    PostDraft(p.title, p.content, p.excerpt, p.slug, p.status, p.publishedAt, p.authorId, p.categories)
  }

  function CategoryDraftOf(c: Category): CategoryDraft {
    CategoryDraft(c.name, c.slug, c.description, c.color)
  }

  function CommentDraftOf(c: Comment): CommentDraft {
    CommentDraft(c.content, c.authorId, c.postId)
  }

  function ContactDraftOf(c: Contact): ContactDraft {
    ContactDraft(c.name, c.email, c.phone, c.subject, c.message, c.status)
  }

  function NewsletterDraftOf(n: Newsletter): NewsletterDraft {
    NewsletterDraft(n.email, n.name, n.isActive)
  }

  /** `Partial<User>`: a key is present exactly when its field is `Some`. At run time
      `Object.keys` reports the keys in the order the caller inserted them; fixing them in
      the declaration order of the interface is a choice of this model. */
  datatype UserPatch = UserPatch(
    id: Option<Id>, email: Option<string>, name: Option<string>, phone: Option<string>,
    role: Option<Role>, createdAt: Option<Timestamp>, updatedAt: Option<Timestamp>)

  datatype PostPatch = PostPatch(
    id: Option<Id>, title: Option<string>, content: Option<string>, excerpt: Option<string>,
    slug: Option<string>, status: Option<PostStatus>, publishedAt: Option<Timestamp>,
    createdAt: Option<Timestamp>, updatedAt: Option<Timestamp>, authorId: Option<Id>,
    categories: Option<seq<Id>>)

  datatype CategoryPatch = CategoryPatch(
    id: Option<Id>, name: Option<string>, slug: Option<string>, description: Option<string>,
    color: Option<string>, createdAt: Option<Timestamp>, updatedAt: Option<Timestamp>)

  datatype CommentPatch = CommentPatch(
    id: Option<Id>, content: Option<string>, createdAt: Option<Timestamp>,
    updatedAt: Option<Timestamp>, authorId: Option<Id>, postId: Option<Id>)

  datatype ContactPatch = ContactPatch(
    id: Option<Id>, name: Option<string>, email: Option<string>, phone: Option<string>,
    subject: Option<string>, message: Option<string>, status: Option<ContactStatus>,
    createdAt: Option<Timestamp>, updatedAt: Option<Timestamp>)

  datatype NewsletterPatch = NewsletterPatch(
    id: Option<Id>, email: Option<string>, name: Option<string>, isActive: Option<bool>,
    createdAt: Option<Timestamp>, updatedAt: Option<Timestamp>)

  /** The shape `storage.exportData()` produces and `migrateFromLocalStorage` consumes: one
      array per entity kind. A missing array behaves as an empty one. */
  datatype Snapshot = Snapshot(
    users: seq<User>, posts: seq<Post>, categories: seq<Category>, comments: seq<Comment>,
    contacts: seq<Contact>, newsletters: seq<Newsletter>)

  const EmptySnapshot := Snapshot([], [], [], [], [], [])
}

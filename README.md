# Green Ocean site: persistence facade, schema script and page state, in Dafny

This project models the core of a bilingual (Arabic/English) content site: its persistence layer
and the state logic of four of its pages and components.

- **Relational adapter** (`src/lib/mysql.ts`, module `MySQL` with the row layer `Rows`). It covers:
  - the configuration read from the environment;
  - the connection, held as an optional set of six tables;
  - create, read, update and delete for users, categories, posts, comments, contacts and
    newsletter subscriptions;
  - the translation between the entity shapes and the stored rows (roles, statuses, `is_active`,
    the slug derived on every read);
  - the UPDATE statement built from a partial update object;
  - the migration loop that copies an exported snapshot into the tables.
- **Fallback store** (`src/lib/storage.ts`, module `Fallback`). That file forwards every call to an
  HTTP API, so the store is modelled as the six collections the API keeps.
- **Unified facade** (`src/lib/database.ts`, module `Database`). This is a two-flag state machine
  (`initialized`, `useMySQL`). It connects once and migrates local records when connected. After
  that it routes each call to one store. Several calls are stubs in relational mode, and several
  call fallback-store methods that do not exist.
- **Schema script runner** (`executeSQL` in `database/setup.js`, module `SetupSql`). It splits a
  script on `;`, trims the pieces and drops comment pieces. Then it sends each statement and counts
  successes and skips.
- **Project editor form** (`src/components/ProjectForm.tsx`, module `ProjectFormState`).
- **Account page** (`src/pages/Account.tsx`, module `AccountPage`).
- **Language context** (`src/contexts/language-context.tsx`, module `LanguageContext`).
- **Social share texts** (`src/components/ui/social-share.tsx`, module `SocialShare`).

Stateful objects are classes whose methods update fields:
- `MySQL.MySQLManager`;
- `Fallback.FallbackStore`;
- `Database.DatabaseManager`;
- the three component-state classes.

Each method is specified against a pure function. The facade's methods are stated through
`*Step` functions on a `FacadeState` value. Those functions carry the properties: routing, what
stays unchanged, and the consistency invariant "relational mode implies an open connection".

Several things outside the program become parameters:
- what the database server or the API answers;
- the clock and the generated identifiers, as a `Stamp`;
- environment variables, as a map;
- `encodeURIComponent`;
- the result of a health probe.

## Model

| member | source | states |
|---|---|---|
| MySQL.EnvOr | src/lib/mysql.ts:52-60 | a set, non-empty variable wins; an unset or empty one gives the default |
| MySQL.ConfigFrom | src/lib/mysql.ts:62-68 | host and port are never empty (defaults `localhost`, `3306`); an unset user gives the empty user |
| MySQL.ConnectSucceeds | src/lib/mysql.ts:71-86 | `connect` resolves true only when user, password and database are all non-empty |
| MySQL.AfterConnect | src/lib/mysql.ts:71-86 | an incomplete configuration keeps the old connection; a successful connect leaves the opened tables |
| MySQL.MySQLManager.Connect | src/lib/mysql.ts:71-86 | the result and the new connection are those of `ConnectSucceeds`/`AfterConnect`; a schema failure keeps the opened connection but answers false |
| MySQL.MySQLManager.Disconnect | src/lib/mysql.ts:88-93 | the connection is closed afterwards |
| MySQL.MySQLManager.IsHealthy | src/lib/mysql.ts:790-799 | healthy only with an open connection, and then exactly when the probe answers |
| MySQL.RowById | src/lib/mysql.ts:194-198 | `rows[0]` of a `WHERE id = ?`: none exactly when no row has the id; a found row has it |
| MySQL.UpdateWhere | src/lib/mysql.ts:246-249 | an UPDATE keeps the row count and leaves rows with other ids untouched |
| MySQL.UpdateThenFind | src/lib/mysql.ts:246-252 | reading back by id after an id-preserving UPDATE gives the found row with the statement applied |
| MySQL.DeleteWhere | src/lib/mysql.ts:255-259 | a row is removed exactly when one had the id; none with the id remains; the rows kept are exactly the input rows with another id |
| MySQL.UserById | src/lib/mysql.ts:194-208 | null exactly when no users row has the id; the user found has that id |
| MySQL.InsertUser | src/lib/mysql.ts:102-104 | refused with a bad-value error when the NOT NULL `name` or `password` would be null; otherwise succeeds exactly when neither the id nor the e-mail is taken, and then appends the row; otherwise a duplicate-key error |
| MySQL.UserCreateThenRead | src/lib/mysql.ts:210-229 | a created user reads back by its id as create returned it, except that the phone is gone and MODERATOR reads as USER |
| MySQL.UpdateUserRows | src/lib/mysql.ts:231-253 | no writable field means nothing is written; an accepted UPDATE changes only the users table and keeps its size |
| MySQL.UserUpdateThenRead | src/lib/mysql.ts:231-253 | after an update the user is found exactly when it was before; the e-mail and name sent replace the stored ones; a role sent is stored as admin or user, so MODERATOR reads back as USER; the phone is never stored; id and creation time stay, and `updatedAt` becomes now exactly when a field was written |
| MySQL.UserRowAfterUpdate | src/lib/mysql.ts:231-253 | after an accepted UPDATE the row with the id exists exactly when it did; with no writable field it is unchanged, otherwise it is the stored row with the statement applied |
| MySQL.CreateUserOn | src/lib/mysql.ts:210-229 | throws without a connection; succeeds exactly when the INSERT is accepted, and then returns the input echoed and leaves the new tables; a refused INSERT leaves the connection as it was |
| MySQL.UpdateUserOn | src/lib/mysql.ts:231-253 | null without a connection; with no writable field nothing is written and the stored record is read back; an accepted UPDATE leaves the updated tables and answers the record read back from them, so the update-then-read lemmas apply; a record answered has the id asked for; a rejected UPDATE changes nothing |
| MySQL.DeleteUserOn | src/lib/mysql.ts:255-259 | false without a connection; otherwise true exactly when the user existed, the rows left are exactly the old rows with another id, and the other tables are unchanged |
| MySQL.DeleteUserRows | src/lib/mysql.ts:255-259 | true exactly when the user existed; the rows left are exactly the old rows with another id; the other tables are unchanged |
| MySQL.CategoryById | src/lib/mysql.ts:276-290 | null exactly when no categories row has the id; the category found has that id |
| MySQL.InsertCategory | src/lib/mysql.ts:292-301 | succeeds exactly when the id is free, and then appends the row; otherwise a duplicate-key error |
| MySQL.CategoryCreateThenRead | src/lib/mysql.ts:268 | a created category reads back with the slug derived from its name, not the slug passed in |
| MySQL.UpdateCategoryRows | src/lib/mysql.ts:313-333 | no writable field means nothing is written; otherwise only the categories table changes and keeps its size |
| MySQL.CategoryUpdateThenRead | src/lib/mysql.ts:313-333 | after an update the category is found exactly when it was before; the name, description and colour sent replace the stored ones; the slug follows the new name, whatever slug was sent; id and creation time stay, and `updatedAt` becomes now exactly when a field was written |
| MySQL.CategoryRowAfterUpdate | src/lib/mysql.ts:313-333 | after an accepted UPDATE the row with the id exists exactly when it did; with no writable field it is unchanged, otherwise it is the stored row with the statement applied |
| MySQL.CreateCategoryOn | src/lib/mysql.ts:292-311 | throws without a connection; succeeds exactly when the INSERT is accepted, and then returns the input echoed and leaves the new tables; a refused INSERT leaves the connection as it was |
| MySQL.UpdateCategoryOn | src/lib/mysql.ts:313-333 | null without a connection; with no writable field nothing is written and the stored record is read back; an accepted UPDATE leaves the updated tables and answers the record read back from them, so the update-then-read lemmas apply; a record answered has the id asked for; a rejected UPDATE changes nothing |
| MySQL.DeleteCategoryOn | src/lib/mysql.ts:335-339 | false without a connection; otherwise true exactly when the category existed, the rows left are exactly the old rows with another id, and the other tables are unchanged |
| MySQL.DeleteCategoryRows | src/lib/mysql.ts:335-339 | true exactly when the category existed; the rows left are exactly the old rows with another id; the other tables are unchanged |
| MySQL.PostById | src/lib/mysql.ts:393-411 | null exactly when no posts row has the id; the post found has that id |
| MySQL.InsertPost | src/lib/mysql.ts:413-424 | succeeds exactly when the id is free, and then appends the row |
| MySQL.PostCreateThenRead | src/lib/mysql.ts:413-439 | a created post reads back with the slug derived from the title, `publishedAt` the creation time exactly when published, and only the first category |
| MySQL.UpdatePostRows | src/lib/mysql.ts:441-470 | no writable field means nothing is written; otherwise only the posts table changes and keeps its size |
| MySQL.PostUpdateThenRead | src/lib/mysql.ts:441-470 | after an update the post is found exactly when it was before; title, content, excerpt and status sent replace the stored ones; the slug follows the title; `publishedAt` is the new update time exactly when the status is PUBLISHED; a non-empty category list replaces the category by its first element; id and creation time stay, and `updatedAt` becomes now exactly when a field was written |
| MySQL.PostRowAfterUpdate | src/lib/mysql.ts:441-470 | after an accepted UPDATE the row with the id exists exactly when it did; with no writable field it is unchanged, otherwise it is the stored row with the statement applied |
| MySQL.CreatePostOn | src/lib/mysql.ts:413-439 | throws without a connection; succeeds exactly when the INSERT is accepted, and then returns the input echoed and leaves the new tables; a refused INSERT leaves the connection as it was |
| MySQL.UpdatePostOn | src/lib/mysql.ts:441-470 | null without a connection; with no writable field nothing is written and the stored record is read back; an accepted UPDATE leaves the updated tables and answers the record read back from them, so the update-then-read lemmas apply; a record answered has the id asked for; a rejected UPDATE changes nothing |
| MySQL.DeletePostOn | src/lib/mysql.ts:472-476 | false without a connection; otherwise true exactly when the post existed, the rows left are exactly the old rows with another id, and the other tables are unchanged |
| MySQL.DeletePostRows | src/lib/mysql.ts:472-476 | true exactly when the post existed; the rows left are exactly the old rows with another id; the other tables are unchanged |
| MySQL.CommentById | src/lib/mysql.ts:500-513 | null exactly when no comments row has the id; the comment found has that id |
| MySQL.InsertComment | src/lib/mysql.ts:515-523 | succeeds exactly when the id is free, and then appends the row |
| MySQL.CommentCreateThenRead | src/lib/mysql.ts:515-533 | a created comment reads back exactly as create returned it |
| MySQL.UpdateCommentRows | src/lib/mysql.ts:535-552 | no writable field means nothing is written; otherwise only the comments table changes |
| MySQL.CommentUpdateThenRead | src/lib/mysql.ts:535-552 | after an update the comment is found exactly when it was before; the content sent replaces the stored one; id and creation time stay, and `updatedAt` becomes now exactly when a field was written |
| MySQL.CommentRowAfterUpdate | src/lib/mysql.ts:535-552 | after an accepted UPDATE the row with the id exists exactly when it did; with no writable field it is unchanged, otherwise it is the stored row with the statement applied |
| MySQL.CreateCommentOn | src/lib/mysql.ts:515-533 | throws without a connection; succeeds exactly when the INSERT is accepted, and then returns the input echoed and leaves the new tables; a refused INSERT leaves the connection as it was |
| MySQL.UpdateCommentOn | src/lib/mysql.ts:535-552 | null without a connection; with no writable field nothing is written and the stored record is read back; an accepted UPDATE leaves the updated tables and answers the record read back from them, so the update-then-read lemmas apply; a record answered has the id asked for; a rejected UPDATE changes nothing |
| MySQL.DeleteCommentOn | src/lib/mysql.ts:554-558 | false without a connection; otherwise true exactly when the comment existed, the rows left are exactly the old rows with another id, and the other tables are unchanged |
| MySQL.DeleteCommentRows | src/lib/mysql.ts:554-558 | true exactly when the comment existed; the rows left are exactly the old rows with another id; the other tables are unchanged |
| MySQL.ContactById | src/lib/mysql.ts:580-598 | null exactly when no contacts row has the id; the contact found has that id |
| MySQL.InsertContact | src/lib/mysql.ts:600-612 | succeeds exactly when the id is free, and then appends the row |
| MySQL.ContactCreateThenRead | src/lib/mysql.ts:600-625 | a created contact reads back as create returned it, except that an empty phone reads as absent |
| MySQL.UpdateContactRows | src/lib/mysql.ts:627-651 | no writable field means nothing is written; otherwise only the contacts table changes |
| MySQL.ContactUpdateThenRead | src/lib/mysql.ts:627-651 | after an update the contact is found exactly when it was before; name, e-mail, subject, message and status sent replace the stored ones; a phone sent is stored, and an empty one reads back as absent; id and creation time stay, and `updatedAt` becomes now exactly when a field was written |
| MySQL.ContactRowAfterUpdate | src/lib/mysql.ts:627-651 | after an accepted UPDATE the row with the id exists exactly when it did; with no writable field it is unchanged, otherwise it is the stored row with the statement applied |
| MySQL.CreateContactOn | src/lib/mysql.ts:600-625 | throws without a connection; succeeds exactly when the INSERT is accepted, and then returns the input echoed and leaves the new tables; a refused INSERT leaves the connection as it was |
| MySQL.UpdateContactOn | src/lib/mysql.ts:627-651 | null without a connection; with no writable field nothing is written and the stored record is read back; an accepted UPDATE leaves the updated tables and answers the record read back from them, so the update-then-read lemmas apply; a record answered has the id asked for; a rejected UPDATE changes nothing |
| MySQL.DeleteContactOn | src/lib/mysql.ts:653-657 | false without a connection; otherwise true exactly when the contact message existed, the rows left are exactly the old rows with another id, and the other tables are unchanged |
| MySQL.DeleteContactRows | src/lib/mysql.ts:653-657 | true exactly when the contact message existed; the rows left are exactly the old rows with another id; the other tables are unchanged |
| MySQL.NewsletterById | src/lib/mysql.ts:673-685 | null exactly when no newsletters row has the id; the subscription found has that id |
| MySQL.InsertNewsletter | src/lib/mysql.ts:687-695 | succeeds exactly when neither id nor e-mail is taken, and then appends the row |
| MySQL.NewsletterCreateThenRead | src/lib/mysql.ts:687-704 | a created subscription reads back exactly as create returned it |
| MySQL.UpdateNewsletterRows | src/lib/mysql.ts:706-729 | no writable field means nothing is written; otherwise only the newsletters table changes |
| MySQL.NewsletterUpdateThenRead | src/lib/mysql.ts:706-729 | after an update the newsletter is found exactly when it was before; the e-mail and the active flag sent replace the stored ones; id and creation time stay, and `updatedAt` becomes now exactly when a field was written |
| MySQL.NewsletterRowAfterUpdate | src/lib/mysql.ts:706-729 | after an accepted UPDATE the row with the id exists exactly when it did; with no writable field it is unchanged, otherwise it is the stored row with the statement applied |
| MySQL.CreateNewsletterOn | src/lib/mysql.ts:687-704 | throws without a connection; succeeds exactly when the INSERT is accepted, and then returns the input echoed and leaves the new tables; a refused INSERT leaves the connection as it was |
| MySQL.UpdateNewsletterOn | src/lib/mysql.ts:706-729 | null without a connection; with no writable field nothing is written and the stored record is read back; an accepted UPDATE leaves the updated tables and answers the record read back from them, so the update-then-read lemmas apply; a record answered has the id asked for; a rejected UPDATE changes nothing |
| MySQL.DeleteNewsletterOn | src/lib/mysql.ts:731-735 | false without a connection; otherwise true exactly when the subscription existed, the rows left are exactly the old rows with another id, and the other tables are unchanged |
| MySQL.DeleteNewsletterRows | src/lib/mysql.ts:731-735 | true exactly when the subscription existed; the rows left are exactly the old rows with another id; the other tables are unchanged |
| MySQL.UsersOf | src/lib/mysql.ts:180-192 | one decoded user per row, in table order |
| MySQL.CategoriesOfTables | src/lib/mysql.ts:262-274 | one decoded category per row |
| MySQL.PostsOf | src/lib/mysql.ts:342-365 | one decoded post per row |
| MySQL.ContactsOf | src/lib/mysql.ts:561-578 | one decoded contact per row |
| MySQL.NewslettersOf | src/lib/mysql.ts:660-671 | one decoded subscription per row |
| MySQL.PublishedPostsOf | src/lib/mysql.ts:367-391 | every post returned is PUBLISHED and has a `publishedAt` |
| MySQL.PublishedRow | src/lib/mysql.ts:358-359 | a row is selected by stored status 'published' exactly when its decoded post is PUBLISHED, and then both decodings agree |
| MySQL.PublishedPostsAreFilteredPosts | src/lib/mysql.ts:342-391 | the published posts are exactly `getPosts` filtered by PUBLISHED, in order |
| MySQL.CommentsOfPost | src/lib/mysql.ts:479-498 | exactly the comments of the post: every one returned is decoded from a stored row of the post, and every stored row of the post is returned |
| MySQL.MigrationRecords | src/lib/mysql.ts:742-782 | the creates in order: all users, then categories, posts, comments, contacts and newsletters, each record at its offset |
| MySQL.InsertRecord | src/lib/mysql.ts:742-782 | a successful create adds exactly one row and only appends |
| MySQL.Migrate | src/lib/mysql.ts:740-787 | the migration inserts a prefix of the records, one row each, only appending; it stops exactly at the first record whose create throws |
| MySQL.ExportedUsersNeverMigrate | src/lib/mysql.ts:742-747 | an exported user has no password, so a migration with any user stops at its first record and inserts nothing |
| MySQL.MySQLManager.MigrateFromLocalStorage | src/lib/mysql.ts:738-788 | nothing without a connection; otherwise the tables become those of `Migrate` over the exported records, and it reports whether every record arrived |
| MySQL.MySQLManager.CreateRecord | src/lib/mysql.ts:742-782 | one create of the migration: true exactly when the insert is accepted, and then the connection holds the new tables |
| MySQL.MySQLManager.GetUsers | src/lib/mysql.ts:180-192 | empty without a connection, the decoded users otherwise |
| MySQL.MySQLManager.GetUserById | src/lib/mysql.ts:194-208 | null without a connection, the user by id otherwise |
| MySQL.MySQLManager.GetCategories | src/lib/mysql.ts:262-274 | empty without a connection, the decoded categories otherwise |
| MySQL.MySQLManager.GetCategoryById | src/lib/mysql.ts:276-290 | null without a connection, the category by id otherwise |
| MySQL.MySQLManager.GetPosts | src/lib/mysql.ts:342-365 | empty without a connection, the decoded posts otherwise |
| MySQL.MySQLManager.GetPublishedPosts | src/lib/mysql.ts:367-391 | empty without a connection, otherwise the posts filtered by PUBLISHED |
| MySQL.MySQLManager.GetPostById | src/lib/mysql.ts:393-411 | null without a connection, the post by id otherwise |
| MySQL.MySQLManager.GetCommentsByPostId | src/lib/mysql.ts:479-498 | empty without a connection, the post's comments otherwise |
| MySQL.MySQLManager.GetCommentById | src/lib/mysql.ts:500-513 | null without a connection, the comment by id otherwise |
| MySQL.MySQLManager.GetContacts | src/lib/mysql.ts:561-578 | empty without a connection, the decoded contacts otherwise |
| MySQL.MySQLManager.GetContactById | src/lib/mysql.ts:580-598 | null without a connection, the contact by id otherwise |
| MySQL.MySQLManager.GetNewsletters | src/lib/mysql.ts:660-671 | empty without a connection, the decoded subscriptions otherwise |
| MySQL.MySQLManager.GetNewsletterById | src/lib/mysql.ts:673-685 | null without a connection, the subscription by id otherwise |
| MySQL.MySQLManager.CreateUser | src/lib/mysql.ts:210-229 | throws without a connection; otherwise the INSERT, and the input echoed back |
| MySQL.MySQLManager.UpdateUser | src/lib/mysql.ts:231-253 | null without a connection; otherwise the UPDATE, then the user read back by id |
| MySQL.MySQLManager.DeleteUser | src/lib/mysql.ts:255-259 | false without a connection; otherwise whether a row was deleted |
| MySQL.MySQLManager.CreateCategory | src/lib/mysql.ts:292-311 | throws without a connection; otherwise the INSERT and the input echoed |
| MySQL.MySQLManager.UpdateCategory | src/lib/mysql.ts:313-333 | null without a connection; otherwise the UPDATE and the category read back |
| MySQL.MySQLManager.DeleteCategory | src/lib/mysql.ts:335-339 | false without a connection; otherwise whether a row was deleted |
| MySQL.MySQLManager.CreatePost | src/lib/mysql.ts:413-439 | throws without a connection; otherwise the INSERT and the input echoed |
| MySQL.MySQLManager.UpdatePost | src/lib/mysql.ts:441-470 | null without a connection; otherwise the UPDATE and the post read back |
| MySQL.MySQLManager.DeletePost | src/lib/mysql.ts:472-476 | false without a connection; otherwise whether a row was deleted |
| MySQL.MySQLManager.CreateComment | src/lib/mysql.ts:515-533 | throws without a connection; otherwise the INSERT and the input echoed |
| MySQL.MySQLManager.UpdateComment | src/lib/mysql.ts:535-552 | null without a connection; otherwise the UPDATE and the comment read back |
| MySQL.MySQLManager.DeleteComment | src/lib/mysql.ts:554-558 | false without a connection; otherwise whether a row was deleted |
| MySQL.MySQLManager.CreateContact | src/lib/mysql.ts:600-625 | throws without a connection; otherwise the INSERT and the input echoed |
| MySQL.MySQLManager.UpdateContact | src/lib/mysql.ts:627-651 | null without a connection; otherwise the UPDATE and the contact read back |
| MySQL.MySQLManager.DeleteContact | src/lib/mysql.ts:653-657 | false without a connection; otherwise whether a row was deleted |
| MySQL.MySQLManager.CreateNewsletter | src/lib/mysql.ts:687-704 | throws without a connection; otherwise the INSERT and the input echoed |
| MySQL.MySQLManager.UpdateNewsletter | src/lib/mysql.ts:706-729 | null without a connection; otherwise the UPDATE and the subscription read back |
| MySQL.MySQLManager.DeleteNewsletter | src/lib/mysql.ts:731-735 | false without a connection; otherwise whether a row was deleted |
| MySQL.MySQLManager.constructor | src/lib/mysql.ts:50-69 | the configuration comes from the environment and there is no connection |
| Rows.RoleToDb | src/lib/mysql.ts:217 | ADMIN and USER read back as themselves, MODERATOR as USER |
| Rows.RoleFromDb | src/lib/mysql.ts:188 | ADMIN exactly for the stored value 'admin', USER for anything else; never MODERATOR |
| Rows.PostStatusToDb | src/lib/mysql.ts:418 | every post status reads back as itself |
| Rows.PostStatusFromDb | src/lib/mysql.ts:358 | any stored value other than 'published' or 'archived' reads as DRAFT |
| Rows.ContactStatusToDb | src/lib/mysql.ts:605-607 | every contact status reads back as itself |
| Rows.ContactStatusFromDb | src/lib/mysql.ts:572-574 | an unknown stored value reads as PENDING |
| Rows.ActiveToDb | src/lib/mysql.ts:694 | the flag written as 1/0 reads back by truthiness as the same flag |
| Rows.StoredValuesRoundTrip | src/lib/mysql.ts:188-217 | the stored spellings the adapter writes survive a read followed by a write |
| Rows.Truthy | src/lib/mysql.ts:610 | `value \|\| null` drops exactly the absent and the empty string |
| Rows.PublishedAt | src/lib/mysql.ts:359 | `publishedAt` is present exactly for stored status 'published', and is then the update time |
| Rows.PublishedPostFromRow | src/lib/mysql.ts:378-389 | on a 'published' row it agrees with the general decoding |
| Rows.UserFromRow | src/lib/mysql.ts:183-191 | the phone reads as absent and the role is only ADMIN (for stored `admin`) or USER; the other fields are the stored ones |
| Rows.CategoryFromRow | src/lib/mysql.ts:265-273 | the slug is derived from the stored name |
| Rows.PostFromRow | src/lib/mysql.ts:352-363 | the slug is derived from the title; published exactly when `publishedAt` is present, which is then the update time; at most the stored category |
| Rows.CommentFromRow | src/lib/mysql.ts:490-497 | id, content, author and post are the stored ones |
| Rows.ContactFromRow | src/lib/mysql.ts:565-577 | an empty stored phone reads as absent; an unknown stored status reads as PENDING |
| Rows.NewsletterFromRow | src/lib/mysql.ts:664-670 | no name; active exactly when the stored flag is non-zero |
| Rows.UserRowOf | src/lib/mysql.ts:215-218 | the inserted row has the new id and the e-mail; it decodes to what create returned except phone and MODERATOR |
| Rows.CategoryRowOf | src/lib/mysql.ts:297-300 | the inserted row decodes to what create returned with the slug derived from the name |
| Rows.FirstCategory | src/lib/mysql.ts:419 | present exactly for a non-empty category list, and then its first element |
| Rows.PostRowOf | src/lib/mysql.ts:418-424 | the inserted row decodes with the derived slug, `publishedAt` only when published, and only the first category |
| Rows.CommentRowOf | src/lib/mysql.ts:520-523 | the inserted row decodes exactly to what create returned |
| Rows.ContactRowOf | src/lib/mysql.ts:609-612 | the inserted row decodes to what create returned, an empty phone read as absent |
| Rows.NewsletterRowOf | src/lib/mysql.ts:692-695 | the inserted row decodes exactly to what create returned |
| Rows.Fields | src/lib/mysql.ts:239-242 | the keys kept are exactly the writable ones (not `id`, not `createdAt`), each taken from the keys; empty exactly when none is writable |
| Rows.FieldsInOrder | src/lib/mysql.ts:239-242 | a writable key keeps its place among the fields: what precedes it stays before it and what follows it stays after it |
| Rows.FieldsMembers | src/lib/mysql.ts:239-242 | a key is among the fields exactly when it is a writable key |
| Rows.Present | src/lib/mysql.ts:239-242 | `Object.entries` of the update object: only the properties it carries, none exactly when every value is absent |
| Rows.PresentAt | src/lib/mysql.ts:239-242 | among distinct property names, a present property contributes its own assignment, and no other assignment names its column |
| Rows.UserKeys | src/lib/mysql.ts:234-242 | the entries of the translated user update: only its property names, none exactly when the update sends none of them |
| Rows.CategoryKeys | src/lib/mysql.ts:315-322 | the entries of the translated category update: only its property names, none exactly when the update sends none of them |
| Rows.PostKeys | src/lib/mysql.ts:443-459 | the entries of the translated post update: only its property names, none exactly when the update sends none of them |
| Rows.CommentKeys | src/lib/mysql.ts:538-541 | the entries of the translated comment update: only its property names, none exactly when the update sends none of them |
| Rows.ContactKeys | src/lib/mysql.ts:630-640 | the entries of the translated contact update: only its property names, none exactly when the update sends none of them |
| Rows.NewsletterKeys | src/lib/mysql.ts:709-719 | the entries of the translated newsletter update: only its property names, none exactly when the update sends none of them |
| Rows.Statement | src/lib/mysql.ts:246-250 | the fields in order, then `updated_at` set to now |
| Rows.PostFieldsTranslation | src/lib/mysql.ts:443-453 | a post update never writes `slug`, `publishedAt` or `categories`, and writes `category_id` exactly for a non-empty category list |
| Rows.PostKeysOmit | src/lib/mysql.ts:452-454 | the translated post update names no `slug`, `publishedAt` or `categories` |
| Rows.PostKeysCategory | src/lib/mysql.ts:449-452 | `category_id` is present exactly for a non-empty category list, and is then its first element |
| Rows.Rejection | src/lib/mysql.ts:246-250 | the database accepts the statement exactly when every column exists with a matching kind |
| Rows.UserUpdateWrites | src/lib/mysql.ts:231-253 | an UPDATE built from a user update writes exactly the columns sent, with the values sent, keeps id and creation time, and sets `updated_at` to now; some field is written whenever a writable property is sent |
| Rows.UserUpdateDecodes | src/lib/mysql.ts:231-253 | the updated row decodes to the stored user with the fields sent replaced and `updatedAt` set to now |
| Rows.CategoryUpdateWrites | src/lib/mysql.ts:313-333 | an UPDATE built from a category update writes exactly the columns sent, with the values sent, keeps id and creation time, and sets `updated_at` to now; some field is written whenever a writable property is sent |
| Rows.CategoryUpdateDecodes | src/lib/mysql.ts:313-333 | the updated row decodes to the stored category with the fields sent replaced and `updatedAt` set to now |
| Rows.PostUpdateWrites | src/lib/mysql.ts:441-470 | an UPDATE built from a post update writes exactly the columns sent, with the values sent, keeps id and creation time, and sets `updated_at` to now; some field is written whenever a writable property is sent |
| Rows.PostUpdateDecodes | src/lib/mysql.ts:441-470 | the updated row decodes to the stored post with the fields sent replaced and `updatedAt` set to now |
| Rows.CommentUpdateWrites | src/lib/mysql.ts:535-552 | an UPDATE built from a comment update writes exactly the columns sent, with the values sent, keeps id and creation time, and sets `updated_at` to now; some field is written whenever a writable property is sent |
| Rows.CommentUpdateDecodes | src/lib/mysql.ts:535-552 | the updated row decodes to the stored comment with the fields sent replaced and `updatedAt` set to now |
| Rows.ContactUpdateWrites | src/lib/mysql.ts:627-651 | an UPDATE built from a contact update writes exactly the columns sent, with the values sent, keeps id and creation time, and sets `updated_at` to now; some field is written whenever a writable property is sent |
| Rows.ContactUpdateDecodes | src/lib/mysql.ts:627-651 | the updated row decodes to the stored contact with the fields sent replaced and `updatedAt` set to now |
| Rows.NewsletterUpdateWrites | src/lib/mysql.ts:706-729 | an UPDATE built from a newsletter update writes exactly the columns sent, with the values sent, keeps id and creation time, and sets `updated_at` to now; some field is written whenever a writable property is sent |
| Rows.NewsletterUpdateDecodes | src/lib/mysql.ts:706-729 | the updated row decodes to the stored newsletter with the fields sent replaced and `updatedAt` set to now |
| Text.Slugify | src/lib/mysql.ts:268 | a derived slug holds no whitespace and no upper-case letter |
| Text.SlugifyIdempotent | src/lib/mysql.ts:268 | deriving a slug from a slug changes nothing |
| Text.SlugOfTwoWords | src/lib/mysql.ts:357 | two words separated by a space become the lower-cased words joined by `-` |
| Text.SlugOfWord | src/lib/mysql.ts:268 | a word without whitespace slugs to its lower-case form |
| Text.SlugAcrossRun | src/lib/mysql.ts:268 | a run of whitespace between a word and the rest becomes one `-` between the lower-cased word and the slug of the rest |
| Text.CleanEnergySlug | src/lib/mysql.ts:268 | "Clean Energy" reads back as "clean-energy" |
| Text.Trim | database/setup.js:60 | `trim` gives a piece of the text with no whitespace at either end |
| Text.TrimRemovesWhitespace | database/setup.js:60 | what `trim` removes before and after that piece is all whitespace |
| Text.Split | database/setup.js:59 | `split(';')` gives at least one piece, and no piece holds `;` |
| Text.SplitJoin | database/setup.js:59 | joining the pieces with `;` gives back the script |
| Text.SplitAtSeparator | database/setup.js:59 | a separator after a piece without it splits off exactly that piece |
| Text.JoinSplit | database/setup.js:59 | splitting the join of pieces that do not hold the separator gives back the pieces |
| Text.Utf16Length | src/pages/Account.tsx:91 | `.length` counts UTF-16 units: between one and two per character |
| Lists.Filter | database/setup.js:61 | `filter` keeps only passing elements; it keeps all exactly when all pass and none exactly when none pass |
| Lists.FilterMembers | database/setup.js:61 | every element kept comes from the input, and every passing element is kept |
| Lists.FilterConcat | src/lib/database.ts:86-102 | filtering two runs one after the other gives the two results one after the other |
| Fallback.UpdateFirst | src/lib/storage.ts:111-120 | the first element with the id is replaced by its merge; nothing changes when there is none |
| Fallback.RemoveAll | src/lib/storage.ts:122-130 | true exactly when the id was present; the elements kept are exactly the input elements with another id |
| Fallback.MergeUser | src/lib/storage.ts:111-120 | each field sent (e-mail, name, phone, role, update time) replaces the stored one and every other field stays; id and creation time stay |
| Fallback.MergePost | src/lib/storage.ts:159-168 | each field sent (title, content, excerpt, slug, status, publication and update time, author, categories) replaces the stored one and every other field stays; id and creation time stay |
| Fallback.MergeCategory | src/lib/storage.ts:199-208 | each field sent (name, slug, description, colour, update time) replaces the stored one and every other field stays; id and creation time stay |
| Fallback.FallbackStore.constructor | src/lib/storage.ts:71-73 | the store starts with the given collections |
| Fallback.FallbackStore.GetUserById | src/lib/storage.ts:96-102 | null exactly when no user has the id; the user found is stored and has the id |
| Fallback.FallbackStore.CreateUser | src/lib/storage.ts:104-109 | the created user is appended and returned |
| Fallback.FallbackStore.UpdateUser | src/lib/storage.ts:111-120 | the first user with the id is merged and returned; null when none |
| Fallback.FallbackStore.DeleteUser | src/lib/storage.ts:122-130 | true exactly when the user existed; afterwards it is gone |
| Fallback.FallbackStore.GetPostById | src/lib/storage.ts:136-142 | null exactly when no post has the id |
| Fallback.FallbackStore.GetPostBySlug | src/lib/storage.ts:144-150 | null exactly when no post has the slug; the post found has it |
| Fallback.FallbackStore.CreatePost | src/lib/storage.ts:152-157 | the created post is appended and returned |
| Fallback.FallbackStore.UpdatePost | src/lib/storage.ts:159-168 | the first post with the id is merged and returned; null when none |
| Fallback.FallbackStore.DeletePost | src/lib/storage.ts:170-178 | true exactly when the post existed; afterwards it is gone |
| Fallback.FallbackStore.GetCategoryById | src/lib/storage.ts:184-190 | null exactly when no category has the id |
| Fallback.FallbackStore.CreateCategory | src/lib/storage.ts:192-197 | the created category is appended and returned |
| Fallback.FallbackStore.UpdateCategory | src/lib/storage.ts:199-208 | the first category with the id is merged and returned; null when none |
| Fallback.FallbackStore.DeleteCategory | src/lib/storage.ts:210-218 | true exactly when the category existed; afterwards it is gone |
| Fallback.FallbackStore.GetCommentsByPostId | src/lib/storage.ts:224-226 | exactly the stored comments of that post |
| Fallback.FallbackStore.CreateComment | src/lib/storage.ts:228-233 | the created comment is appended and returned |
| Fallback.FallbackStore.DeleteComment | src/lib/storage.ts:235-243 | true exactly when the comment existed; afterwards it is gone |
| Fallback.FallbackStore.CreateContact | src/lib/storage.ts:249-254 | the created contact is appended and returned |
| Fallback.FallbackStore.DeleteContact | src/lib/storage.ts:267-275 | true exactly when the contact existed; afterwards it is gone |
| Fallback.FallbackStore.ClearAllData | src/lib/storage.ts:301-303 | every collection is empty afterwards |
| Fallback.FallbackStore.InitializeSampleData | src/lib/storage.ts:310-312 | the store holds the sample records afterwards |
| Database.InitializeAsWrittenNeverMigrates | src/lib/database.ts:20-31 | as written, `initialize` never migrates and never clears the fallback store |
| Database.AsWrittenSkipsMigration | src/lib/database.ts:20-31 | with one local user and a working server the intended test migrates and clears, the written one does neither |
| Database.HasLocalDataAsWritten | src/lib/database.ts:20-22 | the written test is false, even when users, posts or categories are stored |
| Database.InitializeWith | src/lib/database.ts:11-37 | as written, with the test as a parameter: runs once; connected and the test holding, migrate and then clear the fallback store whatever the migration achieved |
| Database.ClearingAfterFailedMigrationLosesUser | src/lib/database.ts:24-30 | with the test awaited, one local user and a working server, the user reaches neither store |
| Database.InitializeStep | src/lib/database.ts:11-37 | runs once; the first call sets `useMySQL` to the connect result, and when connected with a user, post or category locally migrates them, clearing the fallback store only when every record arrived |
| Database.InitializeLosesNoRecord | src/lib/database.ts:24-30 | when `initialize` empties the fallback store, every one of its records was inserted, one row each |
| Database.InitializeIdempotent | src/lib/database.ts:12 | a second `initialize` changes nothing |
| Database.OtherRecordsDoNotMigrate | src/lib/database.ts:20-22 | comments, contacts and newsletters alone never start a migration |
| Database.InitializeKeepsConsistent | src/lib/database.ts:15-37 | after `initialize`, relational mode implies an open connection |
| Database.RelationalExport | src/lib/database.ts:256-265 | the relational export always has empty comments |
| Database.UserWithEmail | src/lib/database.ts:50-58 | `find` by e-mail: null exactly when no user matches; otherwise the first match |
| Database.PostWithId | src/lib/database.ts:104-111 | `find` by id: null exactly when no post matches; otherwise the first match |
| Database.PostWithSlug | src/lib/database.ts:113-120 | `find` by slug: null exactly when no post matches; otherwise the first match |
| Database.CategoryWithId | src/lib/database.ts:143-150 | `find` by id: null exactly when no category matches; otherwise the first match |
| Database.NewsletterWithEmail | src/lib/database.ts:220-227 | `find` by e-mail: null exactly when no subscription matches; otherwise the first match |
| Database.PostsInCategory | src/lib/database.ts:86-93 | exactly the posts filed under the category; empty exactly when none is |
| Database.PostsByAuthor | src/lib/database.ts:95-102 | exactly that author's posts; empty exactly when none is |
| Database.FiltersKeepOrder | src/lib/database.ts:86-102 | both filters keep the order of the list |
| Database.DerivedLookupsMatchQueries | src/lib/database.ts:104-150 | looking a post or category up in the full list gives what the keyed query gives |
| Database.CreateUserStep | src/lib/database.ts:60-63 | routed to one store; the other is unchanged; an error changes nothing; consistency kept |
| Database.UpdateUserStep | src/lib/database.ts:65-68 | a stub answering null in relational mode; otherwise the users become `UpdateFirst` with the merge, nothing else changes, and the answer is null exactly when no user has the id |
| Database.DeleteUserStep | src/lib/database.ts:70-73 | a stub answering false in relational mode; otherwise only the users change: those left are exactly the old ones with another id, and the answer says whether one had it |
| Database.CreatePostStep | src/lib/database.ts:122-125 | routed to one store; the other unchanged; an error changes nothing |
| Database.UpdatePostStep | src/lib/database.ts:127-130 | a stub answering null in relational mode; otherwise the posts become `UpdateFirst` with the merge, nothing else changes, and the answer is null exactly when no post has the id |
| Database.DeletePostStep | src/lib/database.ts:132-135 | a stub answering false in relational mode; otherwise only the posts change: those left are exactly the old ones with another id, and the answer says whether one had it |
| Database.CreateCategoryStep | src/lib/database.ts:152-155 | routed to one store; the other unchanged; an error changes nothing |
| Database.UpdateCategoryStep | src/lib/database.ts:157-160 | a stub answering null in relational mode; otherwise the categories become `UpdateFirst` with the merge, nothing else changes, and the answer is null exactly when no category has the id |
| Database.DeleteCategoryStep | src/lib/database.ts:162-165 | a stub answering false in relational mode; otherwise only the categories change: those left are exactly the old ones with another id, and the answer says whether one had it |
| Database.CreateCommentStep | src/lib/database.ts:178-181 | routed to one store; the other unchanged; an error changes nothing |
| Database.DeleteCommentStep | src/lib/database.ts:188-191 | a stub answering false in relational mode; otherwise only the comments change: those left are exactly the old ones with another id, and the answer says whether one had it |
| Database.CreateContactStep | src/lib/database.ts:199-202 | routed to one store; the other unchanged; an error changes nothing |
| Database.DeleteContactStep | src/lib/database.ts:209-212 | a stub answering false in relational mode; otherwise only the contacts change: those left are exactly the old ones with another id, and the answer says whether one had it |
| Database.CreateNewsletterStep | src/lib/database.ts:229-232 | the relational create when in use; otherwise the missing fallback method fails and nothing changes |
| Database.DatabaseManager.constructor | src/lib/database.ts:7-9 | both flags false, no connection, the fallback store as given |
| Database.DatabaseManager.Initialize | src/lib/database.ts:11-37 | the new state is `InitializeStep` of the old one |
| Database.DatabaseManager.GetAllUsers | src/lib/database.ts:40-43 | initialized, then the users of the store in use |
| Database.DatabaseManager.GetUserById | src/lib/database.ts:45-48 | initialized, then the store in use answers |
| Database.DatabaseManager.GetUserByEmail | src/lib/database.ts:50-58 | the relational users searched by e-mail; the fallback store has no such method |
| Database.DatabaseManager.CreateUser | src/lib/database.ts:60-63 | the state and result are those of `CreateUserStep` after initialization |
| Database.DatabaseManager.UpdateUser | src/lib/database.ts:65-68 | the state and result of `UpdateUserStep` |
| Database.DatabaseManager.DeleteUser | src/lib/database.ts:70-73 | the state and result of `DeleteUserStep` |
| Database.DatabaseManager.GetAllPosts | src/lib/database.ts:76-79 | the posts of the store in use |
| Database.DatabaseManager.GetPublishedPosts | src/lib/database.ts:81-84 | the relational published posts; the fallback store has no such method |
| Database.DatabaseManager.GetPostsByCategory | src/lib/database.ts:86-93 | the relational posts filtered by category; the fallback store has no such method |
| Database.DatabaseManager.GetPostsByAuthor | src/lib/database.ts:95-102 | the relational posts filtered by author; the fallback store has no such method |
| Database.DatabaseManager.GetPostById | src/lib/database.ts:104-111 | the first relational post with the id, or the fallback store's answer |
| Database.DatabaseManager.GetPostBySlug | src/lib/database.ts:113-120 | the first relational post with the slug, or the fallback store's answer |
| Database.DatabaseManager.CreatePost | src/lib/database.ts:122-125 | the state and result of `CreatePostStep` |
| Database.DatabaseManager.UpdatePost | src/lib/database.ts:127-130 | the state and result of `UpdatePostStep` |
| Database.DatabaseManager.DeletePost | src/lib/database.ts:132-135 | the state and result of `DeletePostStep` |
| Database.DatabaseManager.GetAllCategories | src/lib/database.ts:138-141 | the categories of the store in use |
| Database.DatabaseManager.GetCategoryById | src/lib/database.ts:143-150 | the first relational category with the id, or the fallback store's answer |
| Database.DatabaseManager.CreateCategory | src/lib/database.ts:152-155 | the state and result of `CreateCategoryStep` |
| Database.DatabaseManager.UpdateCategory | src/lib/database.ts:157-160 | the state and result of `UpdateCategoryStep` |
| Database.DatabaseManager.DeleteCategory | src/lib/database.ts:162-165 | the state and result of `DeleteCategoryStep` |
| Database.DatabaseManager.GetAllComments | src/lib/database.ts:168-171 | empty in relational mode, the stored comments otherwise |
| Database.DatabaseManager.GetCommentsByPostId | src/lib/database.ts:173-176 | the post's comments from the store in use |
| Database.DatabaseManager.CreateComment | src/lib/database.ts:178-181 | the state and result of `CreateCommentStep` |
| Database.DatabaseManager.UpdateComment | src/lib/database.ts:183-186 | null in relational mode; the fallback store has no such method |
| Database.DatabaseManager.DeleteComment | src/lib/database.ts:188-191 | the state and result of `DeleteCommentStep` |
| Database.DatabaseManager.GetAllContacts | src/lib/database.ts:194-197 | the contacts of the store in use |
| Database.DatabaseManager.CreateContact | src/lib/database.ts:199-202 | the state and result of `CreateContactStep` |
| Database.DatabaseManager.UpdateContact | src/lib/database.ts:204-207 | null in relational mode; the fallback store has no such method |
| Database.DatabaseManager.DeleteContact | src/lib/database.ts:209-212 | the state and result of `DeleteContactStep` |
| Database.DatabaseManager.GetAllNewsletterSubscriptions | src/lib/database.ts:215-218 | the subscriptions of the store in use |
| Database.DatabaseManager.GetNewsletterByEmail | src/lib/database.ts:220-227 | the first relational subscription with the e-mail; the fallback store has no such method |
| Database.DatabaseManager.CreateNewsletterSubscription | src/lib/database.ts:229-232 | the state and result of `CreateNewsletterStep` |
| Database.DatabaseManager.UpdateNewsletterSubscription | src/lib/database.ts:234-237 | null in relational mode; the fallback store has no such method |
| Database.DatabaseManager.DeleteNewsletterSubscription | src/lib/database.ts:239-242 | false in relational mode; the fallback store has no such method |
| Database.DatabaseManager.ClearAllData | src/lib/database.ts:245-251 | empties the fallback store; nothing in relational mode |
| Database.DatabaseManager.ExportData | src/lib/database.ts:253-268 | the relational snapshot (comments empty) or the fallback store's contents |
| Database.DatabaseManager.ImportData | src/lib/database.ts:270-273 | false in relational mode; the fallback store has no such method |
| Database.DatabaseManager.InitializeSampleData | src/lib/database.ts:276-282 | the fallback store installs the sample; nothing in relational mode |
| Database.DatabaseManager.GetStatus | src/lib/database.ts:285-302 | always connected; the fallback store reports healthy; the relational store reports its probe |
| Database.DatabaseManager.SwitchToLocalStorage | src/lib/database.ts:305-309 | fallback routing and a closed connection; nothing else changes |
| Database.DatabaseManager.ReconnectMySQL | src/lib/database.ts:312-319 | routing follows the connect result, which is returned |
| SetupSql.SplitWithoutSeparator | database/setup.js:58-59 | a text without `;` is one piece |
| SetupSql.TrimmedPiece | database/setup.js:60 | a trimmed piece holds no `;` and is already trimmed |
| SetupSql.Statements | database/setup.js:58-61 | every statement is non-empty, does not start with `--`, holds no `;` and is trimmed |
| SetupSql.StatementsOfPiece | database/setup.js:58-61 | a piece without `;` gives its trimmed text as the one statement when it is kept, nothing otherwise |
| SetupSql.StatementsOfJoin | database/setup.js:58-61 | the statements of a piece, `;`, and a rest are those of the piece followed by those of the rest |
| SetupSql.CommentLedPieceDropped | database/setup.js:61 | a piece that starts with a comment line is dropped with the statement after it |
| SetupSql.Count | database/setup.js:67-85 | one statement adds at most one to each tally; a success exactly for a sent statement that ran, a skip exactly for a statement not sent or refused because what it creates exists already |
| SetupSql.Tally | database/setup.js:63-86 | the tallies never exceed the statements seen; the last statement adds a skip exactly when it counts as one and a success exactly when it was sent and ran |
| SetupSql.AllRunAllSucceed | database/setup.js:73-75 | when every statement is sent and runs, all are successes and none skipped |
| SetupSql.AllExistingAllSkipped | database/setup.js:67-85 | when every statement is skipped or refused as already existing, the tallies are no success and one skip per statement |
| SetupSql.OtherFailureUncounted | database/setup.js:76-85 | another failure counts nowhere, so the tallies fall short of the statement count |
| SetupSql.SentAmong | database/setup.js:66-74 | at most as many statements are sent as were seen |
| SetupSql.SentAreUnskipped | database/setup.js:67-71 | the statements sent are exactly those not skipped, in order |
| SetupSql.RunStatement | database/setup.js:67-85 | one pass of the loop: the tallies as `Count` says; sent exactly when not skipped |
| SetupSql.RunStatements | database/setup.js:66-86 | the loop: the tallies of all statements and the statements sent |
| SetupSql.ExecuteSql | database/setup.js:53-89 | answers true; the tallies never exceed the statement count; the statements sent are those not skipped |
| ProjectFormState.WithInput | src/components/ProjectForm.tsx:37-42 | the named text field takes the value; nothing else changes |
| ProjectFormState.WithCover | src/components/ProjectForm.tsx:44-51 | an image becomes the cover; any other file changes nothing |
| ProjectFormState.WithUpload | src/components/ProjectForm.tsx:53-59 | the gallery is the current images followed by the new images in order, cut to its first ten: exactly that many, and nothing else changes |
| ProjectFormState.WithoutImage | src/components/ProjectForm.tsx:61-66 | the image at the index is removed and the rest keep their order; an index outside changes nothing |
| ProjectFormState.ValidityIsTheFourTexts | src/components/ProjectForm.tsx:110-111 | validity depends only on the four text fields being non-empty |
| ProjectFormState.ProjectForm.constructor | src/components/ProjectForm.tsx:24-35 | the empty draft form, no drag, no submission |
| ProjectFormState.ProjectForm.HandleInputChange | src/components/ProjectForm.tsx:37-42 | the record becomes `WithInput`; at most ten images kept |
| ProjectFormState.ProjectForm.HandleCoverImageUpload | src/components/ProjectForm.tsx:44-51 | the record becomes `WithCover` |
| ProjectFormState.ProjectForm.HandleGalleryUpload | src/components/ProjectForm.tsx:53-59 | the record becomes `WithUpload`, which keeps at most ten images |
| ProjectFormState.ProjectForm.RemoveGalleryImage | src/components/ProjectForm.tsx:61-66 | the record becomes `WithoutImage` |
| ProjectFormState.ProjectForm.HandleDrag | src/components/ProjectForm.tsx:68-76 | enter and over activate, leave deactivates, other events change nothing |
| ProjectFormState.ProjectForm.HandleDrop | src/components/ProjectForm.tsx:78-86 | deactivated; dropped files uploaded when there is one |
| ProjectFormState.ProjectForm.HandleSubmit | src/components/ProjectForm.tsx:88-108 | the form is reset to the empty draft and no submission runs |
| ProjectFormState.ProjectForm.SubmitDisabled | src/components/ProjectForm.tsx:110-111 | disabled exactly while submitting or while one of the four text fields is empty |
| AccountPage.InitialProfile | src/pages/Account.tsx:33-39 | the user name of the session, or empty |
| AccountPage.WithProfileField | src/pages/Account.tsx:46-51 | only the named profile field changes |
| AccountPage.WithPasswordField | src/pages/Account.tsx:53-58 | only the named password field changes |
| AccountPage.CheckPasswordChange | src/pages/Account.tsx:81-98 | a mismatch is refused first; then fewer than six UTF-16 units is too short; otherwise changed |
| AccountPage.MismatchReportedFirst | src/pages/Account.tsx:82-98 | a mismatching pair is a mismatch whatever its length; six characters or more are never too short |
| AccountPage.AccountForm.constructor | src/pages/Account.tsx:31-44 | the initial profile, empty passwords, not submitting |
| AccountPage.AccountForm.ChangeDisabled | src/pages/Account.tsx:299 | disabled exactly while submitting or while one of the three password fields is empty |
| AccountPage.AccountForm.HandleProfileChange | src/pages/Account.tsx:46-51 | the profile becomes `WithProfileField` |
| AccountPage.AccountForm.HandlePasswordChange | src/pages/Account.tsx:53-58 | the passwords become `WithPasswordField` |
| AccountPage.AccountForm.HandleSaveProfile | src/pages/Account.tsx:60-79 | no submission runs afterwards |
| AccountPage.AccountForm.HandleChangePassword | src/pages/Account.tsx:81-124 | the outcome is `CheckPasswordChange`; a refusal changes nothing; a change empties the fields |
| LanguageContext.Translate | src/contexts/language-context.tsx:136-142 | the row's text in the current language for a known key, the fallback otherwise |
| LanguageContext.TranslateIgnoresFallbackForKnownKeys | src/contexts/language-context.tsx:136-142 | the fallback never shows for a known key |
| LanguageContext.IsRtl | src/contexts/language-context.tsx:149 | right-to-left exactly for Arabic |
| LanguageContext.DirectionOf | src/contexts/language-context.tsx:103 | `rtl` exactly for Arabic |
| LanguageContext.LanguageProvider.constructor | src/contexts/language-context.tsx:85 | the provider starts in Arabic |
| LanguageContext.LanguageProvider.IsRTL | src/contexts/language-context.tsx:149 | right-to-left exactly for Arabic |
| LanguageContext.LanguageProvider.HandleSetLanguage | src/contexts/language-context.tsx:116-134 | the language is set and the document follows it |
| LanguageContext.LanguageProvider.LoadLanguagePreference | src/contexts/language-context.tsx:92-114 | a saved language is applied; a failed request falls back to Arabic right-to-left; otherwise nothing changes |
| SocialShare.ShareText | src/components/ui/social-share.tsx:36 | the title, with " - " and the description when there is one |
| SocialShare.Hashtag | src/components/ui/social-share.tsx:37 | `#` then the tag |
| SocialShare.HashtagString | src/components/ui/social-share.tsx:37 | empty exactly without tags; otherwise starts with `#` |
| SocialShare.FullText | src/components/ui/social-share.tsx:38 | trimmed: no whitespace at either end |
| SocialShare.FullTextWithoutHashtags | src/components/ui/social-share.tsx:36-38 | without tags the separating space is trimmed away |
| SocialShare.TwoHashtags | src/components/ui/social-share.tsx:37 | two tags give `#a #b` |
| SocialShare.TrimIgnoresTrailingSpace | src/components/ui/social-share.tsx:38 | a trailing space does not change the trimmed text |
| SocialShare.LinksDependOnFullText | src/components/ui/social-share.tsx:40-45 | LinkedIn ignores the hashtags; the others see title, description and tags only through the full text |
| SocialShare.ShareUrl | src/components/ui/social-share.tsx:40-45 | every link opens its platform's share page, followed by the encoded parameters: the page address and the full text for Facebook, the full text and the page address for Twitter, the page address, title and description for LinkedIn, and the full text, a space and the page address for WhatsApp |
| SocialShare.ShareUrlsDistinct | src/components/ui/social-share.tsx:40-45 | two different platforms never get the same link |
| SocialShare.HashtagsSplitBack | src/components/ui/social-share.tsx:37 | the hashtag string splits on spaces back into the `#`-prefixed tags when no tag holds a space |

## Left out

- Row order: the `ORDER BY` clauses of the list queries (`created_at DESC`, `name`) are not modelled. Lists come back in table order.
- Bind values: mysql2's refusal of `undefined` bind parameters (an absent `avatar`, `content` or `excerpt`) is not modelled. An absent optional value is stored as null. The one exception is `createUser`: an absent name or password is refused, because the columns are NOT NULL.
- Schema: the table definitions (`initializeTables`), foreign keys with their cascades, and UNIQUE checks on UPDATE are not modelled. The tables are plain sequences of rows, and only INSERT enforces the unique e-mail. Of the NOT NULL columns, only `users.name` and `users.password` are enforced; `posts.content`, `posts.category_id` and the others accept null in the model.
- Null category: a post stored with a null `category_id` reads back as `[null]` in the source. The model reads it back as an empty category list.
- Lower-casing: `toLowerCase` is modelled for the ASCII letters only; other scripts pass through unchanged.
- Date formatting: `toISOString` and JSON formatting are not modelled. Timestamps are opaque strings, and `exportData` returns the snapshot value, not its JSON text.
- Port: `parseInt` of the port is not modelled; the port is kept as text.
- Environment: where `getEnvVar` reads from (`import.meta.env` or `process.env`) is not modelled. The environment is one map.
- The HTTP API behind the fallback store: its own semantics, and fetch failures, are modelled as in-memory collections. `storage.ts`'s own `updateContactStatus`, `subscribeToNewsletter` and `unsubscribeFromNewsletter` have no caller in the facade and are not modelled.
- Concurrency: `initialize` is awaited by every call, and two concurrent first calls could both connect. The model is sequential. The module-level auto-initialize call is not modelled.
- Database.DatabaseManager.Initialize: models the intended behaviour (see Findings): the test for local records is awaited, and the fallback store is cleared only after a migration in which every record arrived. The code as written, which clears after any migration, is `Database.InitializeWith`.
- MySQL.MySQLManager.MigrateFromLocalStorage: reports whether every record arrived, so that the caller can decide whether to clear. The source only logs the failure and returns nothing.
- Migration identifiers: ids and timestamps are regenerated for every migrated record, as the creates draw them. Foreign keys between migrated records therefore point at old ids, and this is not checked.
- MySQL.MySQLManager.IsHealthy: the `SELECT 1` probe is a parameter saying whether the server answers.
- SetupSql.ExecuteSql: the outer `catch` that answers false is not modelled, since nothing inside the loop's own handler can throw. The log lines are not modelled either.
- Form field types: `handleInputChange` takes any key of the record. Only the four text fields are modelled.
- Saved language: a saved value other than `ar` or `en` is not representable.
- Translation keys: keys inherited from `Object.prototype` are not treated as table keys.
- Translation table: the table is a parameter, not the literal of the file.
- Browser effects: `encodeURIComponent` is a parameter of `SocialShare.ShareUrl`. `window.open`, the clipboard in `handleCopyLink`, and the toasts are not modelled.
- Account page: `HandleSaveProfile` and the accepted password change simulate a delay; only their end state is modelled.

## Findings

| source | as written | input that shows it | evidently intended | confidence | as-written member | corrected member |
|---|---|---|---|---|---|---|
| src/lib/database.ts:20-30 | three unawaited promises, at lines 20-22, 26-27 and 30. (1) `storage.getAllUsers().length > 0 \|\| ...`: a Promise has no `length`, so the test is always false and the local records are never migrated or cleared. (2) `JSON.parse(storage.exportData())`: `exportData` is async, so `JSON.parse` receives a Promise, reads its text `[object Promise]` and throws, which would end `initialize` before `initialized` is set. (3) `storage.clearAllData()`: `initialize` can return before the fallback store is cleared | a first `initialize` with a working server and one user in the fallback store | await the three listing calls, then `JSON.parse(await storage.exportData())`, migrate, and `await storage.clearAllData()` | high (not executed) | Database.AsWrittenSkipsMigration | Database.InitializeStep |
| src/lib/mysql.ts:742-787 | exported users carry no password, so `createUser` binds a missing value for the NOT NULL `password` column and throws; the `catch` at lines 785-787 swallows it, and `initialize` (src/lib/database.ts:26-30) then clears the fallback store | a first `initialize`, with the local-data test awaited, a working server and one user in the fallback store | clear the fallback store only after a successful migration, as the comment at database.ts:29 says | high (not executed) | Database.ClearingAfterFailedMigrationLosesUser | Database.InitializeLosesNoRecord |

# post-app access control, modelled in Dafny

A model of the access-control and record-lifecycle core of a small Rails
publishing application. Users author posts, posts may be attributed to
publishers, and three roles (`user`, `admin`, `master`) decide who may do
what. The model covers:

- the role enumeration and its five permission predicates (`can_create_posts?`,
  `can_manage_publishers?`, `can_see_publisher?`, `can_manage_users?`,
  `can_access_authorization?`);
- the Post and Publisher validations, the `by_user` and `active` scopes, and
  the cascades on delete (`dependent: :destroy` for a user's posts,
  `dependent: :nullify` for a publisher's posts);
- every action of the posts, publishers and authorization controllers, with
  their before-filters in the source's order, as pure functions from a store
  and a request to an outcome and a new store.

The store (`Database.Store`) holds the users, posts and publishers tables as
maps from id to row, with each table's autoincrement counter; its type
guarantees every id in use is below its counter. Two invariants are stated
over it: `Consistent` (foreign keys, field validations, unique publisher
names) and `Valid` (`Consistent`, and every post's owner still holds the
`user` role). Every mutating action is proved to keep both, except the role
change, which keeps `Consistent` and can break `Valid`.

The signed-in identity is an explicit `session` argument; a session that
names no account is unauthenticated, and that is checked before anything
else. The clock reading that becomes `created_at` is an argument of post
creation. Outcomes are `Ok`, `Unauthenticated`, `Denied`, `NotFound`,
`BadRequest` (the required `post`/`publisher` parameter is missing),
`Invalid` (carrying the failing validations) and `Fault` (a database
constraint raises). Every outcome other than `Ok` leaves the store as it was.

Files: `options.dfy`, `roles.dfy`, `ordering.dfy` (text order, newest-first
order, insertion sort), `query.dfy` (row selection, 5-per-page pagination),
`records.dfy`, `database.dfy`, `posts_controller.dfy`,
`publishers_controller.dfy`, `authorization_controller.dfy`, `scenarios.dfy`
(concrete request sequences).

Behaviour of the code worth noting, each captured by the model:

- The permission listing is a fixed list per role, not derived from the
  predicates. The listing for `master` includes "Create and manage posts",
  yet `can_create_posts?` is false for `master`
  (app/controllers/authorization_controller.rb:34-42, app/models/user.rb:21-23;
  `PermissionListingAgainstPredicates`).
- Both the permission page and the role change sit behind
  `ensure_master_access`, so only a `master` reaches either
  (app/controllers/authorization_controller.rb:3).
- Editing, updating and deleting a post run the `user`-role gate before the
  ownership check, so an owner who has been promoted can no longer edit or
  delete their own posts (app/controllers/posts_controller.rb:3-5;
  `DestroyIffOwner`, `PromotedAuthorLockedOut`).
- A role change naming a missing user raises in `User.find`, which is a
  not-found response rather than the "Failed to update user role" branch
  (app/controllers/authorization_controller.rb:12).
- No action consults `can_see_publisher?`; publisher index and show are open
  to every signed-in identity, admins included
  (app/controllers/publishers_controller.rb:2-4).
- A post with title "Hi" and content "short" fails two checks, not one: the
  title's minimum of three characters and the content's minimum of ten
  (app/models/post.rb:7-8; `ShortPostRefused`).

## Model

| member | source | states |
|---|---|---|
| Roles.RoleIsExactlyOne | app/models/user.rb:16 | a role is user, admin or master, and never two of them |
| Roles.CanCreatePosts | app/models/user.rb:21-23 | post creation is allowed for every role except admin and master |
| Roles.CanManagePublishers | app/models/user.rb:25-28 | publisher management is allowed exactly for the roles that may not create posts |
| Roles.CanSeePublisher | app/models/user.rb:30-32 | seeing publishers is refused to admin alone |
| Roles.CanManageUsers | app/models/user.rb:34-36 | user management is allowed for master alone, a role that also manages publishers and may not create posts |
| Roles.CanAccessAuthorization | app/models/user.rb:38-40 | the authorization page is open exactly to the roles that may manage users |
| Roles.CreatePostsIffUser | app/models/user.rb:21-23 | post creation is allowed exactly for the `user` role |
| Roles.CreateAndManageComplementary | app/models/user.rb:21-28 | for every role, exactly one of post creation and publisher management is allowed |
| Roles.SeePublisherExcludesOnlyAdmin | app/models/user.rb:30-32 | `can_see_publisher?` fails for admin only |
| Roles.UserManagementMatchesAuthorizationAccess | app/models/user.rb:34-40 | user management and authorization access agree on every role and hold exactly for master |
| Records.StatusIsExactlyOne | app/models/post.rb:5 | a post status is draft or published, never both |
| Records.PostProblems | app/models/post.rb:7-33 | the error set holds each failure exactly when its check fails (blank title, title under 3 or over 100 characters, blank content, content under 10, missing owner, owner without the `user` role) and holds nothing else |
| Records.PostValid | app/models/post.rb:7-33 | a post passes validation iff its title is non-blank with 3 to 100 characters, its content is non-blank with at least 10, and its owner exists and holds the `user` role |
| Records.NonAuthorOwnerInvalid | app/models/post.rb:27-33 | a post owned by an admin or master fails validation whatever its other fields |
| Records.PublisherReferenceIrrelevant | app/models/post.rb:3 | changing or clearing the publisher reference never changes validity |
| Records.ByUser | app/models/post.rb:14 | `by_user(u)` holds exactly the posts owned by u, unchanged |
| Records.ByUserPartitions | app/models/post.rb:14 | no post is in the `by_user` scope of two different users |
| Records.PublisherProblems | app/models/publisher.rb:2-3 | the error set holds each failure exactly when its check fails (blank name, name under 2 or over 100 characters, name held by another publisher, description over 500 characters) and holds nothing else |
| Records.PublisherValid | app/models/publisher.rb:2-3 | a publisher passes validation iff its name is non-blank with 2 to 100 characters and used by no other publisher, and its description, when present, has at most 500 characters |
| Records.Active | app/models/publisher.rb:7 | `active` holds exactly the publishers whose active flag is set |
| Ordering.Sort | app/controllers/posts_controller.rb:8 | the listing is strictly ordered by the chosen column, and holds exactly the input's members, as many as the input when it has no repeats |
| Ordering.SortedUnique | app/controllers/posts_controller.rb:13 | two listings strictly ordered by the same column with the same members are the same sequence |
| Query.Select | app/controllers/posts_controller.rb:8 | a scope yields exactly the stored rows that pass its condition, each once, in ascending id order |
| Query.Page | app/controllers/posts_controller.rb:23 | a page holds at most 5 rows, all from the listing |
| Query.PagesArePrefix | app/controllers/posts_controller.rb:23 | pages 1 to k together are exactly the first 5k rows of the listing, in order |
| Query.PagesCoverAll | app/controllers/posts_controller.rb:23 | enough pages together are the whole listing |
| Query.TwelveRowsPaged | app/controllers/posts_controller.rb:23 | twelve rows page as 5, 5 and 2, page 0 is page 1, and page 4 is empty |
| Database.Authenticate | app/controllers/posts_controller.rb:2 | a request is signed in exactly when its session names an existing account |
| Database.PostsNewestFirst | app/controllers/posts_controller.rb:8 | a post listing holds exactly the stored posts passing its condition, each once, with `created_at` never increasing |
| Database.PublishersByName | app/controllers/publishers_controller.rb:7 | the publisher listing holds every publisher (or every active one), each once, with names never decreasing |
| Database.UsersByEmail | app/controllers/authorization_controller.rb:8 | the roster holds every account once, with emails never decreasing |
| Database.DestroyUser | app/models/user.rb:18 | deleting a user removes exactly their posts; other posts and all publishers are untouched, and both invariants are kept |
| Database.Nullify | app/models/publisher.rb:5 | every post keeps its id, the destroyed publisher's posts lose only their reference, and the rest are untouched |
| Database.DestroyPublisher | app/models/publisher.rb:5 | the publisher row goes, its posts stay unattributed, users are untouched, and both invariants are kept |
| PostsController.Index | app/controllers/posts_controller.rb:7-9 | a signed-in caller gets exactly the published posts, each once, newest first |
| PostsController.MayAuthor | app/controllers/posts_controller.rb:82-86 | the authoring gate passes exactly for a `user`-role caller |
| PostsController.StatusFilter | app/controllers/posts_controller.rb:14-21 | "draft" and "published" select that status, and any other filter value, or none, selects both |
| PostsController.OwnPosts | app/controllers/posts_controller.rb:12-21 | the personal listing holds exactly the caller's posts passing the status filter, newest first |
| PostsController.MyPosts | app/controllers/posts_controller.rb:11-24 | every signed-in caller gets a page, whatever their role; it holds at most 5 of the caller's own posts; "draft" or "published" keeps only that status, any other or absent filter keeps both |
| PostsController.MyPostsPagesReassemble | app/controllers/posts_controller.rb:13-23 | the `my_posts` pages 1 to k concatenated are the first 5k posts of the filtered newest-first listing, and enough pages give all of it |
| PostsController.MyPostsMatchPages | app/controllers/posts_controller.rb:23 | the `my_posts` pages 1 to k are the slices of the personal listing |
| PostsController.OwnPostsIsTheNewestFirstListing | app/controllers/posts_controller.rb:13 | any newest-first arrangement of the caller's matching posts is the personal listing |
| PostsController.Show | app/controllers/posts_controller.rb:26-27 | any signed-in caller sees any existing post, with no role or ownership check |
| PostsController.New | app/controllers/posts_controller.rb:29-32 | only a `user`-role caller gets the form, with exactly the active publishers, each once, by name |
| PostsController.Build | app/controllers/posts_controller.rb:35-40 | a built post carries the submitted title, content and publisher (a missing title or content reads as empty, a missing publisher as none), is owned by the caller, stamped now, a draft when the draft flag is present and otherwise of the submitted status or published |
| PostsController.Create | app/controllers/posts_controller.rb:34-52 | non-`user` callers are denied; a missing `post` parameter is a bad request; a post failing validation is refused with its errors; a post passing validation is saved unless its publisher id names no publisher, which faults; the saved row is exactly the built post, fresh, and the only change; both invariants are kept |
| PostsController.Guard | app/controllers/posts_controller.rb:3-5 | the role gate refuses before the lookup, the lookup before the ownership check, an author who does not own an existing post is denied, and only an author who owns the post passes |
| PostsController.Edit | app/controllers/posts_controller.rb:54-56 | the edit form is shown exactly when the guard passes, with exactly the active publishers, each once, by name |
| PostsController.Assign | app/controllers/posts_controller.rb:78-79 | an update gives each submitted field its submitted value and leaves unsubmitted fields, the owner and `created_at` as they were |
| PostsController.Update | app/controllers/posts_controller.rb:58-65 | non-authors and non-owners are denied and the store is unchanged; a missing `post` parameter is a bad request; a failing update is refused with its errors; an update passing validation is saved unless its publisher id names no publisher, which faults; a saved update stores exactly the assigned post, changes nothing else and keeps both invariants |
| PostsController.Destroy | app/controllers/posts_controller.rb:67-70 | only the owning author's request succeeds; it removes exactly that post and keeps both invariants; any refusal leaves the store unchanged |
| PostsController.RoleGateComesFirst | app/controllers/posts_controller.rb:3-5 | an admin or master is denied every authoring action, whether or not the post exists, with the store unchanged |
| PostsController.NonOwnerDenied | app/controllers/posts_controller.rb:88-92 | an author naming another author's existing post is denied edit, update and destroy, with the store unchanged |
| PostsController.DestroyIffOwner | app/controllers/posts_controller.rb:82-92 | an existing post is destroyed iff the caller owns it and holds the `user` role |
| PublishersController.MayManage | app/controllers/publishers_controller.rb:54-58 | the management gate passes exactly for admin and master |
| PublishersController.Index | app/controllers/publishers_controller.rb:6-8 | every signed-in caller, admin included, gets every publisher, each once, by name |
| PublishersController.Show | app/controllers/publishers_controller.rb:10-12 | every signed-in caller gets all of the publisher's posts, drafts included, each once, newest first |
| PublishersController.New | app/controllers/publishers_controller.rb:14-16 | only an admin or master gets the form |
| PublishersController.Build | app/controllers/publishers_controller.rb:19 | a new publisher carries the submitted name (empty when missing), description and active flag, and is active when the flag is not submitted |
| PublishersController.Create | app/controllers/publishers_controller.rb:18-26 | user-role callers are denied; a missing `publisher` parameter is a bad request; a duplicate name or bad length is refused and existing publishers are unchanged; a valid request by an admin or master is saved; a created publisher is fresh, has a name no other holds, and is the only change |
| PublishersController.Guard | app/controllers/publishers_controller.rb:3-4 | the management gate refuses before the lookup; admins and masters reach existing publishers |
| PublishersController.Edit | app/controllers/publishers_controller.rb:28-29 | the edit form is shown to admins and masters for existing publishers only |
| PublishersController.Assign | app/controllers/publishers_controller.rb:50-52 | each submitted field takes its submitted value, and unsubmitted name, description and active flag are kept |
| PublishersController.Update | app/controllers/publishers_controller.rb:31-37 | a missing `publisher` parameter is a bad request; an update passing the gate and validation succeeds; a successful update changes only the target publisher, to the submitted fields, under a name no other publisher holds; refusals leave the store unchanged |
| PublishersController.Destroy | app/controllers/publishers_controller.rb:39-42 | only admins and masters destroy; the publisher goes, every post stays, its posts lose their reference, and both invariants are kept |
| PublishersController.Attributed | app/models/publisher.rb:5 | the attributed posts are exactly those referencing the publisher |
| PublishersController.DestroyKeepsAttributedPosts | app/models/publisher.rb:5 | after destroying a publisher with N posts, those N posts remain, none attributed, and the post count is unchanged |
| PublishersController.GateRefusesOnlyUsers | app/controllers/publishers_controller.rb:54-58 | create and destroy are denied exactly for user-role callers, while index and show are open to every role |
| PublishersController.DuplicateNameRefused | app/controllers/publishers_controller.rb:18-25 | creating a publisher under a taken name fails with a name error and the existing publisher is unchanged |
| AuthorizationController.Permissions | app/controllers/authorization_controller.rb:29-61 | every listing has at least four entries, none repeated; "Access admin panel" is listed exactly for admin and master, and "Create and manage own posts" exactly for user |
| AuthorizationController.PermissionListingShape | app/controllers/authorization_controller.rb:29-61 | the listing has 7, 5 and 4 entries for master, admin and user, and each opens and closes with its literal first and last entry |
| AuthorizationController.PermissionListingAgainstPredicates | app/controllers/authorization_controller.rb:29-61 | "Manage publishers" and "Manage all users and their roles" are listed exactly where the predicates allow them, but master is listed "Create and manage posts" without post creation |
| AuthorizationController.MayAdminister | app/controllers/authorization_controller.rb:23-27 | the master gate passes exactly for a master |
| AuthorizationController.Index | app/controllers/authorization_controller.rb:5-9 | only a master gets the page: their role, the master listing, and a roster of every account, each once, by email |
| AuthorizationController.UpdateUserRole | app/controllers/authorization_controller.rb:11-19 | only a master may change a role; a missing target is not found; success changes only the target's role and keeps the store `Consistent` |
| AuthorizationController.PromotionToAdmin | app/controllers/authorization_controller.rb:14 | a user promoted to admin may manage publishers and may not create posts |
| AuthorizationController.PromotedAuthorLockedOut | app/controllers/authorization_controller.rb:14 | after promotion, updating or destroying any post, their own included, is denied with the store unchanged |
| AuthorizationController.PromotionInvalidatesOwnedPosts | app/controllers/authorization_controller.rb:14 | promoting an author who owns a post leaves that post failing validation, so the store is no longer `Valid` |
| AuthorizationController.RoleUpdateKeepsValid | app/controllers/authorization_controller.rb:11-15 | a role change keeps the store `Valid` when the new role is `user` or the target owns no post |
| Scenarios.ShortPostRefused | app/controllers/posts_controller.rb:42-51 | title "Hi" and content "short" are refused with both length errors and no change |
| Scenarios.ValidPostSaved | app/controllers/posts_controller.rb:34-46 | a long enough post is saved published by default, and as a draft under the draft flag |
| Scenarios.AdminPostDenied | app/controllers/posts_controller.rb:82-86 | an admin's valid post is denied with no change |
| Scenarios.SecondPublisherWithSameNameRefused | app/models/publisher.rb:2 | a second publisher with the same name is refused with a name error, and the first stays |
| Scenarios.MasterPromotesAuthor | app/controllers/authorization_controller.rb:11-15 | after the master promotes an author, the publisher form opens and the post form closes for them |

## Left out

- Authentication (Devise: sessions, passwords, registration, password reset) is not modelled; the signed-in identity is the `session` argument.
- Ransack search over `params[:q]` is treated as the identity filter: the query language belongs to a foreign library.
- Kaminari is modelled only as its slicing: offset 5 × (page − 1), with pages below 1 (and an absent page, read as 0) showing the first page. Parsing the page parameter from text is left out.
- Rendering, redirects and flash messages: each action returns an outcome instead. `Denied` does not record whether the redirect goes to the root page or the posts page.
- Coercion of request strings into enums and booleans: the role, the post status and the publisher's active flag arrive already typed, because the typed inputs cannot express the following cases of the source. A non-blank unknown role or status string raises; a blank or absent role or status is stored as nil, so a role change without a `role` parameter would clear the target's role. The active flag never raises: a string outside Rails' false list ("0", "f", "false", "off", ...) reads as true, and a blank one reads as nil, which the NOT NULL `active` column rejects at save (db/migrate/20250824175922_create_publishers.rb:6).
- AuthorizationController.UpdateUserRole: the "Failed to update user role" branch is never taken, because the account validations that could fail belong to Devise, which is not part of this model.
- Timestamps other than `created_at` (`updated_at`) are not modelled.
- Ties in `created_at` are left unordered by the database; the model lists the higher id first. `PostsController.MyPostsPagesReassemble` relies on that fixed tie-break: in the database each page is a separate LIMIT/OFFSET query, so posts sharing a `created_at` across a page boundary may be repeated or skipped from one page to the next. Text ordering compares characters by code point, not by a database collation, and the publisher name uniqueness check (`NameTakenBy`) compares names exactly, while a case-insensitive collation such as MySQL's default would also treat names differing only in case as taken.
- Blankness for `presence: true` counts only ASCII whitespace as blank; Unicode space characters are treated as content.
- The posts table migration is not part of this model. A post whose status is not submitted is saved as published.
- A post naming a publisher id that does not exist passes validation (`optional: true`); the foreign key then raises, modelled as `Fault` with no change.
- The controllers under the admin namespace, which would call user deletion, are not part of this model. `Database.DestroyUser` models the model-level cascade alone.
- `db/seeds.rb` (random sample data and console output), `config/routes.rb` (wiring only), and the database's own NOT NULL and unique-index enforcement under concurrent requests. Only the invariants they leave in the store are captured.
- `can_see_publisher?` is modelled, but no modelled action consults it, matching the source.

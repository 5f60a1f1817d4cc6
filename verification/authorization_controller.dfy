/** The actions of app/controllers/authorization_controller.rb: the
    permission page and the role change, both behind `ensure_master_access`,
    and the fixed per-role permission listing the page shows. */
module AuthorizationController {
  import opened Options
  import opened Roles
  import opened Ordering
  import opened Records
  import opened Database
  import PostsController

  /** The human-readable permission listing shown for each role. It is not
      generated from the predicates and does not match them one to one. */
  function Permissions(r: Role): (listing: seq<string>)
    ensures |listing| >= 4
    ensures forall i, j :: 0 <= i < j < |listing| ==> listing[i] != listing[j]
    ensures "Access admin panel" in listing <==> r != User
    ensures "Create and manage own posts" in listing <==> r == User
  {
    match r
    case Master => [
      "Full system access",
      "Manage all users and their roles",
      "Delete users",
      "Manage publishers",
      "Create and manage posts",
      "Access admin panel",
      "View all content"]
    case Admin => [
      "Access admin panel",
      "View all users (read-only)",
      "Manage publishers",
      "View all posts",
      "Limited administrative access"]
    case User => [
      "Create and manage own posts",
      "View published content",
      "Edit own profile",
      "Basic user access"]
  }

  /** The listing has seven entries for a master, five for an admin and four
      for a user, opening and closing with the literal entries of each. */
  lemma PermissionListingShape(r: Role)
    ensures r == Master ==> |Permissions(r)| == 7
    ensures r == Admin ==> |Permissions(r)| == 5
    ensures r == User ==> |Permissions(r)| == 4
    ensures Permissions(Master)[0] == "Full system access" && Permissions(Master)[6] == "View all content"
    ensures Permissions(Admin)[0] == "Access admin panel" && Permissions(Admin)[4] == "Limited administrative access"
    ensures Permissions(User)[0] == "Create and manage own posts" && Permissions(User)[3] == "Basic user access"
  {
  }

  /** Where the listing agrees with the predicates, and where it does not:
      a master is told "Create and manage posts" but may not create posts. */
  lemma PermissionListingAgainstPredicates(r: Role)
    ensures "Manage publishers" in Permissions(r) <==> CanManagePublishers(r)
    ensures "Manage all users and their roles" in Permissions(r) <==> CanManageUsers(r)
    ensures "Create and manage own posts" in Permissions(r) <==> CanCreatePosts(r)
    ensures "Create and manage posts" in Permissions(Master) && !CanCreatePosts(Master)
  {
  }

  /** What the permission page shows: the caller's role, its listing, and
      the roster when the caller may manage users. */
  datatype AuthorizationInfo = AuthorizationInfo(role: Role, permissions: seq<string>, roster: Option<seq<UserId>>)

  /** `ensure_master_access` passes. */
  function MayAdminister(s: Store, u: UserId): (ok: bool)
    requires u in s.users
    ensures ok <==> s.users[u].role == Master
  {
    CanAccessAuthorization(s.users[u].role)
  }

  function Index(s: Store, session: Option<UserId>): (r: Outcome<AuthorizationInfo>)
    ensures Authenticate(s, session).None? <==> r == Unauthenticated
    ensures r.Ok? <==> Authenticate(s, session).Some? && s.users[session.value].role == Master
    ensures r.Unauthenticated? || r.Denied? || r.Ok?
    ensures r.Ok? ==> r.value.role == Master && r.value.permissions == Permissions(Master)
    ensures r.Ok? ==> r.value.roster.Some?
    ensures r.Ok? ==> forall u :: u in r.value.roster.value <==> u in s.users
    ensures r.Ok? ==> Distinct(r.value.roster.value)
    ensures r.Ok? ==> forall i, j :: 0 <= i < j < |r.value.roster.value| ==>
                       !TextBefore(s.users[r.value.roster.value[j]].email, s.users[r.value.roster.value[i]].email)
  {
    var who := Authenticate(s, session);
    if who.None? then Unauthenticated
    else if !MayAdminister(s, who.value) then Denied
    else
      var role := s.users[who.value].role;
      Ok(AuthorizationInfo(role, Permissions(role),
                           if CanManageUsers(role) then Some(UsersByEmail(s)) else None))
  }

  /** Sets `target`'s role. A missing target raises not-found. */
  function UpdateUserRole(s: Store, session: Option<UserId>, target: UserId, role: Role): (r: Reply<()>)
    ensures Authenticate(s, session).None? <==> r.outcome == Unauthenticated
    ensures r.outcome.Ok? <==> Authenticate(s, session).Some? && s.users[session.value].role == Master && target in s.users
    ensures Authenticate(s, session).Some? && s.users[session.value].role != Master ==> r.outcome == Denied
    ensures Authenticate(s, session).Some? && s.users[session.value].role == Master && target !in s.users ==> r.outcome == NotFound
    ensures !r.outcome.Ok? ==> r.store == s
    ensures r.outcome.Ok? ==>
      && r.store.users.Keys == s.users.Keys
      && r.store.users[target] == s.users[target].(role := role)
      && (forall u :: u in s.users && u != target ==> r.store.users[u] == s.users[u])
      && r.store.posts == s.posts && r.store.publishers == s.publishers
    ensures Consistent(s) ==> Consistent(r.store)
  {
    var who := Authenticate(s, session);
    if who.None? then Reply(Unauthenticated, s)
    else if !MayAdminister(s, who.value) then Reply(Denied, s)
    else if target !in s.users then Reply(NotFound, s)
    else Reply(Ok(()), s.(users := s.users[target := s.users[target].(role := role)]))
  }

  /** A user promoted to admin may manage publishers and may no longer
      create posts. */
  lemma PromotionToAdmin(s: Store, session: Option<UserId>, target: UserId)
    requires UpdateUserRole(s, session, target, Admin).outcome.Ok?
    ensures var t := UpdateUserRole(s, session, target, Admin).store;
            && target in t.users
            && CanManagePublishers(t.users[target].role)
            && !CanCreatePosts(t.users[target].role)
  {
  }

  /** After the promotion the former author can neither update nor destroy
      any post, their own included: the role gate refuses first. */
  lemma PromotedAuthorLockedOut(s: Store, session: Option<UserId>, target: UserId, id: PostId,
                                params: Option<PostsController.PostParams>)
    requires UpdateUserRole(s, session, target, Admin).outcome.Ok?
    ensures var t := UpdateUserRole(s, session, target, Admin).store;
            && PostsController.Update(t, Some(target), id, params) == Reply(Denied, t)
            && PostsController.Destroy(t, Some(target), id) == Reply(Denied, t)
  {
  }

  /** The role change does not revalidate the target's posts: promoting an
      author who owns a post leaves that post failing validation. */
  lemma PromotionInvalidatesOwnedPosts(s: Store, session: Option<UserId>, target: UserId, id: PostId, role: Role)
    requires role != User
    requires UpdateUserRole(s, session, target, role).outcome.Ok?
    requires id in s.posts && s.posts[id].owner == target
    ensures var t := UpdateUserRole(s, session, target, role).store;
            && !PostValid(t.users, t.posts[id])
            && !Valid(t)
  {
  }

  /** Validity survives a role change that leaves no post with a non-author
      owner. */
  lemma RoleUpdateKeepsValid(s: Store, session: Option<UserId>, target: UserId, role: Role)
    requires Valid(s)
    requires role == User || forall id :: id in s.posts ==> s.posts[id].owner != target
    ensures Valid(UpdateUserRole(s, session, target, role).store)
  {
  }
}

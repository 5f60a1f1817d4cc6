/** The actions of app/controllers/posts_controller.rb. Before-filters run in
    the source's order: sign-in, then the `user`-role gate (new, create, edit,
    update, destroy), then the post lookup (show, edit, update, destroy), then
    the ownership check (edit, update, destroy); the first that fails ends the
    request. */
module PostsController {
  import opened Options
  import opened Roles
  import opened Ordering
  import opened Query
  import opened Records
  import opened Database

  /** The permitted `post` parameters; None means not submitted. The
      publisher is doubly optional: submitted blank, it clears the reference. */
  datatype PostParams = PostParams(
    title: Option<string>,
    content: Option<string>,
    publisher: Option<Option<PublisherId>>,
    status: Option<Status>)

  /** `check_user_role` passes. */
  function MayAuthor(s: Store, u: UserId): (ok: bool)
    requires u in s.users
    ensures ok <==> s.users[u].role == User
  {
    CanCreatePosts(s.users[u].role)
  }

  /** Published posts, newest first, for any signed-in user. */
  function Index(s: Store, session: Option<UserId>): (r: Outcome<seq<PostId>>)
    ensures Authenticate(s, session).None? <==> r == Unauthenticated
    ensures Authenticate(s, session).Some? ==> r.Ok?
    ensures r.Ok? ==> forall id :: id in r.value <==> id in s.posts && s.posts[id].status == Published
    ensures r.Ok? ==> forall i, j :: 0 <= i < j < |r.value| ==> s.posts[r.value[i]].createdAt >= s.posts[r.value[j]].createdAt
    ensures r.Ok? ==> Distinct(r.value)
  {
    if Authenticate(s, session).None? then Unauthenticated
    else Ok(PostsNewestFirst(s, (p: Post) => p.status == Published))
  }

  /** The `filter` parameter: "draft" and "published" select one status;
      absent (read as "all") or anything else selects both. */
  function StatusFilter(filter: Option<string>): (wanted: Option<Status>)
    ensures wanted == Some(Draft) <==> filter == Some("draft")
    ensures wanted == Some(Published) <==> filter == Some("published")
    ensures wanted.None? <==> filter != Some("draft") && filter != Some("published")
  {
    match filter.GetOr("all")
    case "draft" => Some(Draft)
    case "published" => Some(Published)
    case _ => None
  }

  predicate Matches(wanted: Option<Status>, p: Post) {
    wanted.None? || p.status == wanted.value
  }

  /** The caller's own posts that pass the status filter, newest first,
      before pagination. */
  function OwnPosts(s: Store, u: UserId, wanted: Option<Status>): (xs: seq<PostId>)
    ensures forall id :: id in xs <==> id in ByUser(s.posts, u) && Matches(wanted, s.posts[id])
    ensures SortedBy(NewestFirst(Stamps(s.posts)), xs)
    ensures forall i, j :: 0 <= i < j < |xs| ==> s.posts[xs[i]].createdAt >= s.posts[xs[j]].createdAt
  {
    PostsNewestFirst(s, (p: Post) => p.owner == u && Matches(wanted, p))
  }

  /** Page `page` of the caller's filtered posts. */
  function MyPosts(s: Store, session: Option<UserId>, filter: Option<string>, page: int): (r: Outcome<seq<PostId>>)
    ensures Authenticate(s, session).None? <==> r == Unauthenticated
    ensures Authenticate(s, session).Some? ==> r.Ok?
    ensures r.Ok? ==> |r.value| <= PerPage
    ensures r.Ok? ==> forall id :: id in r.value ==> id in s.posts && Some(s.posts[id].owner) == session
    ensures r.Ok? && filter == Some("draft") ==> forall id :: id in r.value ==> s.posts[id].status == Draft
    ensures r.Ok? && filter == Some("published") ==> forall id :: id in r.value ==> s.posts[id].status == Published
    ensures r.Ok? ==> r.value == Page(OwnPosts(s, session.value, StatusFilter(filter)), page)
    ensures r.Ok? && filter != Some("draft") && filter != Some("published")
            ==> r.value == Page(OwnPosts(s, session.value, None), page)
  {
    var who := Authenticate(s, session);
    if who.None? then Unauthenticated
    else Ok(Page(OwnPosts(s, who.value, StatusFilter(filter)), page))
  }

  /** Any signed-in user may view any post, draft or not, owned or not. */
  function Show(s: Store, session: Option<UserId>, id: PostId): (r: Outcome<Post>)
    ensures Authenticate(s, session).None? <==> r == Unauthenticated
    ensures Authenticate(s, session).Some? && id !in s.posts ==> r == NotFound
    ensures Authenticate(s, session).Some? && id in s.posts ==> r == Ok(s.posts[id])
  {
    if Authenticate(s, session).None? then Unauthenticated
    else if id !in s.posts then NotFound
    else Ok(s.posts[id])
  }

  /** The new-post form: the active publishers by name, for authors only. */
  function New(s: Store, session: Option<UserId>): (r: Outcome<seq<PublisherId>>)
    ensures Authenticate(s, session).None? <==> r == Unauthenticated
    ensures r.Ok? <==> Authenticate(s, session).Some? && s.users[session.value].role == User
    ensures r.Ok? ==> forall id :: id in r.value <==> id in s.publishers && s.publishers[id].active
    ensures r.Ok? ==> Distinct(r.value)
    ensures r.Ok? ==> forall i, j :: 0 <= i < j < |r.value| ==> !TextBefore(s.publishers[r.value[j]].name, s.publishers[r.value[i]].name)
    ensures !r.Ok? && !r.Unauthenticated? ==> r == Denied
  {
    var who := Authenticate(s, session);
    if who.None? then Unauthenticated
    else if !MayAuthor(s, who.value) then Denied
    else Ok(PublishersByName(s, true))
  }

  /** The post `create` builds for `owner` before saving: missing fields are
      nil, the status defaults to published, and the draft button overrides
      any submitted status. */
  function Build(owner: UserId, params: PostParams, draft: bool, now: nat): (p: Post)
    ensures p.owner == owner && p.createdAt == now
    ensures params.title.Some? ==> p.title == params.title.value
    ensures params.title.None? ==> p.title == ""
    ensures params.content.Some? ==> p.content == params.content.value
    ensures params.content.None? ==> p.content == ""
    ensures params.publisher.Some? ==> p.publisher == params.publisher.value
    ensures params.publisher.None? ==> p.publisher.None?
    ensures draft ==> p.status == Draft
    ensures !draft ==> p.status == params.status.GetOr(Published)
  {
    var status := if draft then Draft else params.status.GetOr(Published);
    Post(params.title.GetOr(""), params.content.GetOr(""), owner, status, params.publisher.GetOr(None), now)
  }

  /** Saves a new post owned by the caller; `now` is the clock reading that
      becomes `created_at`, `draft` whether the draft button was pressed. */
  function Create(s: Store, session: Option<UserId>, params: Option<PostParams>, draft: bool, now: nat): (r: Reply<PostId>)
    ensures Authenticate(s, session).None? <==> r.outcome == Unauthenticated
    ensures Authenticate(s, session).Some? && s.users[session.value].role != User ==> r.outcome == Denied
    ensures !r.outcome.Ok? ==> r.store == s
    ensures r.outcome.Invalid? ==> r.outcome.problems != {}
    ensures Authenticate(s, session).Some? && s.users[session.value].role == User && params.None?
            ==> r.outcome == BadRequest
    ensures Authenticate(s, session).Some? && s.users[session.value].role == User && params.Some?
            && PostProblems(s.users, Build(session.value, params.value, draft, now)) != {}
            ==> r.outcome == Invalid(PostProblems(s.users, Build(session.value, params.value, draft, now)))
    ensures Authenticate(s, session).Some? && s.users[session.value].role == User && params.Some?
            && PostProblems(s.users, Build(session.value, params.value, draft, now)) == {}
            ==> && (r.outcome.Ok? <==> PublisherRefOk(s.publishers, Build(session.value, params.value, draft, now)))
                && (r.outcome == Fault <==> !PublisherRefOk(s.publishers, Build(session.value, params.value, draft, now)))
    ensures r.outcome.Ok? ==>
      var id := r.outcome.value;
      && params.Some? && id !in s.posts && id in r.store.posts
      && r.store.posts - {id} == s.posts
      && r.store.users == s.users && r.store.publishers == s.publishers
      && Some(r.store.posts[id].owner) == session
      && r.store.posts[id] == Build(session.value, params.value, draft, now)
      && r.store.posts[id].createdAt == now
      && PostValid(s.users, r.store.posts[id])
      && (draft ==> r.store.posts[id].status == Draft)
      && (!draft ==> r.store.posts[id].status == params.value.status.GetOr(Published))
    ensures Consistent(s) ==> Consistent(r.store)
    ensures Valid(s) ==> Valid(r.store)
  {
    var who := Authenticate(s, session);
    if who.None? then Reply(Unauthenticated, s)
    else if !MayAuthor(s, who.value) then Reply(Denied, s)
    else if params.None? then Reply(BadRequest, s)
    else
      var post := Build(who.value, params.value, draft, now);
      var problems := PostProblems(s.users, post);
      if problems != {} then Reply(Invalid(problems), s)
      else if !PublisherRefOk(s.publishers, post) then Reply(Fault, s)
      else
        var id := s.nextPost;
        var t := s.(posts := s.posts[id := post], nextPost := id + 1);
        assert t.posts - {id} == s.posts;
        Reply(Ok(id), t)
  }

  /** The before-filters of edit, update and destroy; Ok carries the post. */
  function Guard(s: Store, session: Option<UserId>, id: PostId): (r: Outcome<Post>)
    ensures Authenticate(s, session).None? <==> r == Unauthenticated
    ensures Authenticate(s, session).Some? && s.users[session.value].role != User ==> r == Denied
    ensures Authenticate(s, session).Some? && s.users[session.value].role == User && id !in s.posts ==> r == NotFound
    ensures Authenticate(s, session).Some? && s.users[session.value].role == User && id in s.posts
            && s.posts[id].owner != session.value
            ==> r == Denied
    ensures r.Ok? <==> Authenticate(s, session).Some? && s.users[session.value].role == User
                       && id in s.posts && Some(s.posts[id].owner) == session
    ensures r.Ok? ==> r.value == s.posts[id]
    ensures r.Unauthenticated? || r.Denied? || r.NotFound? || r.Ok?
  {
    var who := Authenticate(s, session);
    if who.None? then Unauthenticated
    else if !MayAuthor(s, who.value) then Denied
    else if id !in s.posts then NotFound
    else if s.posts[id].owner != who.value then Denied
    else Ok(s.posts[id])
  }

  /** The edit form: the active publishers by name. */
  function Edit(s: Store, session: Option<UserId>, id: PostId): (r: Outcome<seq<PublisherId>>)
    ensures r.Ok? <==> Guard(s, session, id).Ok?
    ensures Guard(s, session, id).Unauthenticated? ==> r == Unauthenticated
    ensures Guard(s, session, id).Denied? ==> r == Denied
    ensures Guard(s, session, id).NotFound? ==> r == NotFound
    ensures r.Ok? ==> forall k :: k in r.value <==> k in s.publishers && s.publishers[k].active
    ensures r.Ok? ==> Distinct(r.value)
    ensures r.Ok? ==> forall i, j :: 0 <= i < j < |r.value| ==> !TextBefore(s.publishers[r.value[j]].name, s.publishers[r.value[i]].name)
  {
    match Guard(s, session, id)
    case Ok(_) => Ok(PublishersByName(s, true))
    case Unauthenticated => Unauthenticated
    case Denied => Denied
    case NotFound => NotFound
  }

  /** The post after `update` assigns the submitted fields; owner and
      `created_at` are not assignable. */
  function Assign(p: Post, params: PostParams): (q: Post)
    ensures q.owner == p.owner && q.createdAt == p.createdAt
    ensures params.title.Some? ==> q.title == params.title.value
    ensures params.title.None? ==> q.title == p.title
    ensures params.content.Some? ==> q.content == params.content.value
    ensures params.content.None? ==> q.content == p.content
    ensures params.publisher.Some? ==> q.publisher == params.publisher.value
    ensures params.publisher.None? ==> q.publisher == p.publisher
    ensures params.status.Some? ==> q.status == params.status.value
    ensures params.status.None? ==> q.status == p.status
  {
    p.(title := params.title.GetOr(p.title),
       content := params.content.GetOr(p.content),
       publisher := params.publisher.GetOr(p.publisher),
       status := params.status.GetOr(p.status))
  }

  function Update(s: Store, session: Option<UserId>, id: PostId, params: Option<PostParams>): (r: Reply<PostId>)
    ensures Authenticate(s, session).None? <==> r.outcome == Unauthenticated
    ensures Authenticate(s, session).Some? && s.users[session.value].role != User ==> r.outcome == Denied
    ensures Guard(s, session, id).Denied? ==> r.outcome == Denied
    ensures Guard(s, session, id).NotFound? ==> r.outcome == NotFound
    ensures !r.outcome.Ok? ==> r.store == s
    ensures r.outcome.Invalid? ==> r.outcome.problems != {}
    ensures Guard(s, session, id).Ok? && params.None? ==> r.outcome == BadRequest
    ensures Guard(s, session, id).Ok? && params.Some? && PostProblems(s.users, Assign(s.posts[id], params.value)) != {}
            ==> r.outcome == Invalid(PostProblems(s.users, Assign(s.posts[id], params.value)))
    ensures Guard(s, session, id).Ok? && params.Some? && PostProblems(s.users, Assign(s.posts[id], params.value)) == {}
            ==> && (r.outcome.Ok? <==> PublisherRefOk(s.publishers, Assign(s.posts[id], params.value)))
                && (r.outcome == Fault <==> !PublisherRefOk(s.publishers, Assign(s.posts[id], params.value)))
    ensures r.outcome.Ok? ==>
      && params.Some? && r.outcome.value == id && id in s.posts
      && Some(s.posts[id].owner) == session
      && r.store.posts.Keys == s.posts.Keys
      && (forall k :: k in s.posts && k != id ==> r.store.posts[k] == s.posts[k])
      && r.store.users == s.users && r.store.publishers == s.publishers
      && r.store.posts[id] == Assign(s.posts[id], params.value)
      && r.store.posts[id].owner == s.posts[id].owner
      && r.store.posts[id].createdAt == s.posts[id].createdAt
      && r.store.posts[id].title == params.value.title.GetOr(s.posts[id].title)
      && r.store.posts[id].content == params.value.content.GetOr(s.posts[id].content)
      && r.store.posts[id].status == params.value.status.GetOr(s.posts[id].status)
      && PostValid(s.users, r.store.posts[id])
    ensures Consistent(s) ==> Consistent(r.store)
    ensures Valid(s) ==> Valid(r.store)
  {
    match Guard(s, session, id)
    case Unauthenticated => Reply(Unauthenticated, s)
    case Denied => Reply(Denied, s)
    case NotFound => Reply(NotFound, s)
    case Ok(current) =>
      if params.None? then Reply(BadRequest, s)
      else
        var post := Assign(current, params.value);
        var problems := PostProblems(s.users, post);
        if problems != {} then Reply(Invalid(problems), s)
        else if !PublisherRefOk(s.publishers, post) then Reply(Fault, s)
        else Reply(Ok(id), s.(posts := s.posts[id := post]))
  }

  function Destroy(s: Store, session: Option<UserId>, id: PostId): (r: Reply<()>)
    ensures r.outcome.Ok? <==> Guard(s, session, id).Ok?
    ensures !r.outcome.Ok? ==> r.store == s
    ensures Guard(s, session, id).Unauthenticated? ==> r.outcome == Unauthenticated
    ensures Guard(s, session, id).Denied? ==> r.outcome == Denied
    ensures Guard(s, session, id).NotFound? ==> r.outcome == NotFound
    ensures r.outcome.Ok? ==>
      && id in s.posts && Some(s.posts[id].owner) == session
      && r.store.posts == s.posts - {id}
      && r.store.users == s.users && r.store.publishers == s.publishers
    ensures Consistent(s) ==> Consistent(r.store)
    ensures Valid(s) ==> Valid(r.store)
  {
    match Guard(s, session, id)
    case Ok(_) => Reply(Ok(()), s.(posts := s.posts - {id}))
    case Unauthenticated => Reply(Unauthenticated, s)
    case Denied => Reply(Denied, s)
    case NotFound => Reply(NotFound, s)
  }

  /** A signed-in admin or master is turned away by every authoring action,
      whatever post id they name and whether or not it exists. */
  lemma RoleGateComesFirst(s: Store, session: Option<UserId>, id: PostId, params: Option<PostParams>, draft: bool, now: nat)
    requires Authenticate(s, session).Some? && s.users[session.value].role in {Admin, Master}
    ensures New(s, session) == Denied
    ensures Create(s, session, params, draft, now) == Reply(Denied, s)
    ensures Edit(s, session, id) == Denied
    ensures Update(s, session, id, params) == Reply(Denied, s)
    ensures Destroy(s, session, id) == Reply(Denied, s)
  {
  }

  /** A post is destroyed exactly when an author who owns it asks: no role
      grants the right over another author's post. */
  lemma DestroyIffOwner(s: Store, session: Option<UserId>, id: PostId)
    requires Authenticate(s, session).Some? && id in s.posts
    ensures Destroy(s, session, id).outcome.Ok?
            <==> s.posts[id].owner == session.value && s.users[session.value].role == User
  {
  }

  /** An author naming an existing post of another author is turned away
      by edit, update and destroy, and nothing changes. */
  lemma NonOwnerDenied(s: Store, session: Option<UserId>, id: PostId, params: Option<PostParams>)
    requires Authenticate(s, session).Some? && s.users[session.value].role == User
    requires id in s.posts && s.posts[id].owner != session.value
    ensures Edit(s, session, id) == Denied
    ensures Update(s, session, id, params) == Reply(Denied, s)
    ensures Destroy(s, session, id) == Reply(Denied, s)
  {
  }

  /** Pages 1 through k of `my_posts`, one after another. */
  function MyPostsThrough(s: Store, session: Option<UserId>, filter: Option<string>, k: nat): seq<PostId>
    requires Authenticate(s, session).Some?
    decreases k
  {
    if k == 0 then [] else MyPostsThrough(s, session, filter, k - 1) + MyPosts(s, session, filter, k).value
  }

  /** Reading `my_posts` page by page yields the caller's filtered posts
      newest first, each exactly once, and enough pages yield all of them. */
  lemma {:induction false} MyPostsPagesReassemble(s: Store, session: Option<UserId>, filter: Option<string>, k: nat)
    requires Authenticate(s, session).Some?
    ensures var all := OwnPosts(s, session.value, StatusFilter(filter));
            MyPostsThrough(s, session, filter, k) == all[..Min(k * PerPage, |all|)]
    ensures var all := OwnPosts(s, session.value, StatusFilter(filter));
            |all| <= k * PerPage ==> MyPostsThrough(s, session, filter, k) == all
  {
    var all := OwnPosts(s, session.value, StatusFilter(filter));
    MyPostsMatchPages(s, session, filter, k);
    PagesArePrefix(all, k);
    assert all[..|all|] == all;
  }

  lemma {:induction false} MyPostsMatchPages(s: Store, session: Option<UserId>, filter: Option<string>, k: nat)
    requires Authenticate(s, session).Some?
    ensures MyPostsThrough(s, session, filter, k) == Pages(OwnPosts(s, session.value, StatusFilter(filter)), k)
    decreases k
  {
    if k > 0 {
      MyPostsMatchPages(s, session, filter, k - 1);
    }
  }

  /** The personal listing is the only newest-first arrangement of the
      caller's matching posts. */
  lemma OwnPostsIsTheNewestFirstListing(s: Store, u: UserId, wanted: Option<Status>, xs: seq<PostId>)
    requires SortedBy(NewestFirst(Stamps(s.posts)), xs)
    requires forall id :: id in xs <==> id in s.posts && s.posts[id].owner == u && Matches(wanted, s.posts[id])
    ensures xs == OwnPosts(s, u, wanted)
  {
    SortedUnique(NewestFirst(Stamps(s.posts)), xs, OwnPosts(s, u, wanted));
  }
}

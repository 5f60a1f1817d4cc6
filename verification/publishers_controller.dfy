/** The actions of app/controllers/publishers_controller.rb. After sign-in,
    `check_admin_role` gates new, create, edit, update and destroy, and only
    then is the publisher looked up (show, edit, update, destroy). */
module PublishersController {
  import opened Options
  import opened Roles
  import opened Ordering
  import opened Records
  import opened Database

  /** The permitted `publisher` parameters; None means not submitted. */
  datatype PublisherParams = PublisherParams(
    name: Option<string>,
    description: Option<string>,
    active: Option<bool>)

  /** `check_admin_role` passes. */
  function MayManage(s: Store, u: UserId): (ok: bool)
    requires u in s.users
    ensures ok <==> s.users[u].role in {Admin, Master}
  {
    CanManagePublishers(s.users[u].role)
  }

  /** Every publisher, by name, for any signed-in user (admins included). */
  function Index(s: Store, session: Option<UserId>): (r: Outcome<seq<PublisherId>>)
    ensures Authenticate(s, session).None? <==> r == Unauthenticated
    ensures Authenticate(s, session).Some? ==> r.Ok?
    ensures r.Ok? ==> forall id :: id in r.value <==> id in s.publishers
    ensures r.Ok? ==> Distinct(r.value)
    ensures r.Ok? ==> forall i, j :: 0 <= i < j < |r.value| ==> !TextBefore(s.publishers[r.value[j]].name, s.publishers[r.value[i]].name)
  {
    if Authenticate(s, session).None? then Unauthenticated
    else Ok(PublishersByName(s, false))
  }

  /** A publisher's posts, drafts included, newest first. */
  function Show(s: Store, session: Option<UserId>, id: PublisherId): (r: Outcome<seq<PostId>>)
    ensures Authenticate(s, session).None? <==> r == Unauthenticated
    ensures Authenticate(s, session).Some? ==> (r.Ok? <==> id in s.publishers)
    ensures Authenticate(s, session).Some? && id !in s.publishers ==> r == NotFound
    ensures r.Ok? ==> forall k :: k in r.value <==> k in s.posts && s.posts[k].publisher == Some(id)
    ensures r.Ok? ==> Distinct(r.value)
    ensures r.Ok? ==> forall i, j :: 0 <= i < j < |r.value| ==> s.posts[r.value[i]].createdAt >= s.posts[r.value[j]].createdAt
  {
    if Authenticate(s, session).None? then Unauthenticated
    else if id !in s.publishers then NotFound
    else Ok(PostsNewestFirst(s, (p: Post) => p.publisher == Some(id)))
  }

  function New(s: Store, session: Option<UserId>): (r: Outcome<()>)
    ensures Authenticate(s, session).None? <==> r == Unauthenticated
    ensures r.Ok? <==> Authenticate(s, session).Some? && s.users[session.value].role in {Admin, Master}
    ensures r.Unauthenticated? || r.Denied? || r.Ok?
  {
    var who := Authenticate(s, session);
    if who.None? then Unauthenticated
    else if !MayManage(s, who.value) then Denied
    else Ok(())
  }

  /** The publisher `create` builds: `active` defaults to true. */
  function Build(params: PublisherParams): (q: Publisher)
    ensures params.name.Some? ==> q.name == params.name.value
    ensures params.name.None? ==> q.name == ""
    ensures q.description == params.description
    ensures params.active.Some? ==> q.active == params.active.value
    ensures params.active.None? ==> q.active
  {
    Publisher(params.name.GetOr(""), params.description, params.active.GetOr(true))
  }

  function Create(s: Store, session: Option<UserId>, params: Option<PublisherParams>): (r: Reply<PublisherId>)
    ensures Authenticate(s, session).None? <==> r.outcome == Unauthenticated
    ensures Authenticate(s, session).Some? && s.users[session.value].role == User ==> r.outcome == Denied
    ensures !r.outcome.Ok? ==> r.store == s
    ensures Authenticate(s, session).Some? && s.users[session.value].role != User && params.None?
            ==> r.outcome == BadRequest
    ensures Authenticate(s, session).Some? && s.users[session.value].role != User && params.Some?
            && !PublisherValid(s.publishers, None, Build(params.value))
            ==> r.outcome == Invalid(PublisherProblems(s.publishers, None, Build(params.value)))
    ensures Authenticate(s, session).Some? && s.users[session.value].role != User && params.Some?
            && PublisherValid(s.publishers, None, Build(params.value))
            ==> r.outcome.Ok?
    ensures r.outcome.Ok? ==>
      var id := r.outcome.value;
      && params.Some? && id !in s.publishers && id in r.store.publishers
      && r.store.publishers == s.publishers[id := Build(params.value)]
      && (forall k :: k in s.publishers ==> s.publishers[k].name != r.store.publishers[id].name)
      && r.store.users == s.users && r.store.posts == s.posts
    ensures Consistent(s) ==> Consistent(r.store)
    ensures Valid(s) ==> Valid(r.store)
  {
    var who := Authenticate(s, session);
    if who.None? then Reply(Unauthenticated, s)
    else if !MayManage(s, who.value) then Reply(Denied, s)
    else if params.None? then Reply(BadRequest, s)
    else
      var q := Build(params.value);
      var problems := PublisherProblems(s.publishers, None, q);
      if problems != {} then Reply(Invalid(problems), s)
      else
        var id := s.nextPublisher;
        Reply(Ok(id), s.(publishers := s.publishers[id := q], nextPublisher := id + 1))
  }

  /** The before-filters of edit, update and destroy; Ok carries the row. */
  function Guard(s: Store, session: Option<UserId>, id: PublisherId): (r: Outcome<Publisher>)
    ensures Authenticate(s, session).None? <==> r == Unauthenticated
    ensures Authenticate(s, session).Some? && s.users[session.value].role == User ==> r == Denied
    ensures Authenticate(s, session).Some? && s.users[session.value].role != User && id !in s.publishers ==> r == NotFound
    ensures r.Ok? <==> Authenticate(s, session).Some? && s.users[session.value].role != User && id in s.publishers
    ensures r.Ok? ==> r.value == s.publishers[id]
    ensures r.Unauthenticated? || r.Denied? || r.NotFound? || r.Ok?
  {
    var who := Authenticate(s, session);
    if who.None? then Unauthenticated
    else if !MayManage(s, who.value) then Denied
    else if id !in s.publishers then NotFound
    else Ok(s.publishers[id])
  }

  function Edit(s: Store, session: Option<UserId>, id: PublisherId): (r: Outcome<Publisher>)
    ensures Authenticate(s, session).None? <==> r == Unauthenticated
    ensures Authenticate(s, session).Some? && s.users[session.value].role == User ==> r == Denied
    ensures Authenticate(s, session).Some? && s.users[session.value].role != User && id !in s.publishers ==> r == NotFound
    ensures r.Ok? <==> Authenticate(s, session).Some? && s.users[session.value].role != User && id in s.publishers
    ensures r.Ok? ==> r.value == s.publishers[id]
  {
    Guard(s, session, id)
  }

  /** The row after `update` assigns the submitted fields. */
  function Assign(q: Publisher, params: PublisherParams): (q': Publisher)
    ensures params.name.Some? ==> q'.name == params.name.value
    ensures params.name.None? ==> q'.name == q.name
    ensures params.description.Some? ==> q'.description == params.description
    ensures params.description.None? ==> q'.description == q.description
    ensures params.active.Some? ==> q'.active == params.active.value
    ensures params.active.None? ==> q'.active == q.active
  {
    Publisher(params.name.GetOr(q.name),
              if params.description.Some? then params.description else q.description,
              params.active.GetOr(q.active))
  }

  function Update(s: Store, session: Option<UserId>, id: PublisherId, params: Option<PublisherParams>): (r: Reply<PublisherId>)
    ensures Authenticate(s, session).None? <==> r.outcome == Unauthenticated
    ensures Guard(s, session, id).Denied? ==> r.outcome == Denied
    ensures Guard(s, session, id).NotFound? ==> r.outcome == NotFound
    ensures !r.outcome.Ok? ==> r.store == s
    ensures Guard(s, session, id).Ok? && params.None? ==> r.outcome == BadRequest
    ensures Guard(s, session, id).Ok? && params.Some? && !PublisherValid(s.publishers, Some(id), Assign(s.publishers[id], params.value))
            ==> r.outcome == Invalid(PublisherProblems(s.publishers, Some(id), Assign(s.publishers[id], params.value)))
    ensures Guard(s, session, id).Ok? && params.Some? && PublisherValid(s.publishers, Some(id), Assign(s.publishers[id], params.value))
            ==> r.outcome.Ok?
    ensures r.outcome.Ok? ==>
      && params.Some? && r.outcome.value == id && id in s.publishers
      && r.store.publishers.Keys == s.publishers.Keys
      && (forall k :: k in s.publishers && k != id ==> r.store.publishers[k] == s.publishers[k])
      && (forall k :: k in s.publishers && k != id ==> s.publishers[k].name != r.store.publishers[id].name)
      && r.store.publishers[id] == Assign(s.publishers[id], params.value)
      && r.store.users == s.users && r.store.posts == s.posts
    ensures Consistent(s) ==> Consistent(r.store)
    ensures Valid(s) ==> Valid(r.store)
  {
    match Guard(s, session, id)
    case Unauthenticated => Reply(Unauthenticated, s)
    case Denied => Reply(Denied, s)
    case NotFound => Reply(NotFound, s)
    case Ok(current) =>
      if params.None? then Reply(BadRequest, s)
      else
        var q := Assign(current, params.value);
        var problems := PublisherProblems(s.publishers, Some(id), q);
        if problems != {} then Reply(Invalid(problems), s)
        else Reply(Ok(id), s.(publishers := s.publishers[id := q]))
  }

  /** Removes the publisher; its posts stay, with the reference cleared. */
  function Destroy(s: Store, session: Option<UserId>, id: PublisherId): (r: Reply<()>)
    ensures r.outcome.Ok? <==> Guard(s, session, id).Ok?
    ensures !r.outcome.Ok? ==> r.store == s
    ensures Guard(s, session, id).Unauthenticated? ==> r.outcome == Unauthenticated
    ensures Guard(s, session, id).Denied? ==> r.outcome == Denied
    ensures Guard(s, session, id).NotFound? ==> r.outcome == NotFound
    ensures r.outcome.Ok? ==>
      && r.store.publishers == s.publishers - {id}
      && r.store.users == s.users
      && r.store.posts.Keys == s.posts.Keys && |r.store.posts| == |s.posts|
      && (forall k :: k in s.posts && s.posts[k].publisher == Some(id) ==> r.store.posts[k] == s.posts[k].(publisher := None))
      && (forall k :: k in s.posts && s.posts[k].publisher != Some(id) ==> r.store.posts[k] == s.posts[k])
    ensures Consistent(s) ==> Consistent(r.store)
    ensures Valid(s) ==> Valid(r.store)
  {
    match Guard(s, session, id)
    case Ok(_) => Reply(Ok(()), DestroyPublisher(s, id))
    case Unauthenticated => Reply(Unauthenticated, s)
    case Denied => Reply(Denied, s)
    case NotFound => Reply(NotFound, s)
  }

  /** The posts attributed to publisher `id`. */
  function Attributed(posts: map<PostId, Post>, id: PublisherId): (r: set<PostId>)
    ensures forall k :: k in r <==> k in posts && posts[k].publisher == Some(id)
  {
    set k | k in posts && posts[k].publisher == Some(id)
  }

  /** Destroying a publisher with N posts leaves those N posts in place, each
      without a publisher; no post is deleted. */
  lemma DestroyKeepsAttributedPosts(s: Store, session: Option<UserId>, id: PublisherId)
    requires Destroy(s, session, id).outcome.Ok?
    ensures var after := Destroy(s, session, id).store.posts;
            && Attributed(s.posts, id) <= after.Keys
            && (forall k :: k in Attributed(s.posts, id) ==> after[k].publisher.None?)
            && Attributed(after, id) == {}
            && |after| == |s.posts|
  {
  }

  /** Only a user-role caller is refused by the publisher gate. */
  lemma GateRefusesOnlyUsers(s: Store, session: Option<UserId>, id: PublisherId, params: Option<PublisherParams>)
    requires Authenticate(s, session).Some?
    ensures (Create(s, session, params).outcome == Denied) <==> s.users[session.value].role == User
    ensures (Destroy(s, session, id).outcome == Denied) <==> s.users[session.value].role == User
    ensures Index(s, session).Ok? && (id in s.publishers ==> Show(s, session, id).Ok?)
  {
  }

  /** A second publisher under a taken name is refused, and the first is
      left as it was. */
  lemma DuplicateNameRefused(s: Store, session: Option<UserId>, params: PublisherParams, existing: PublisherId)
    requires Authenticate(s, session).Some? && s.users[session.value].role != User
    requires existing in s.publishers && params.name == Some(s.publishers[existing].name)
    ensures var r := Create(s, session, Some(params));
            && r.outcome.Invalid? && NameTaken in r.outcome.problems
            && r.store.publishers[existing] == s.publishers[existing]
  {
  }
}

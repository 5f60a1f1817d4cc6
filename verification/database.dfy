/** The store the handlers read and write: the three tables with their id
    counters, the integrity the database and the model validations keep, the
    request outcome, and the queries and cascades shared by the handlers. */
module Database {
  import opened Options
  import opened Roles
  import opened Ordering
  import opened Query
  import opened Records

  /** Each table with the next id its autoincrement counter hands out. */
  datatype Tables = Tables(
    users: map<UserId, Account>,
    posts: map<PostId, Post>,
    publishers: map<PublisherId, Publisher>,
    nextUser: nat,
    nextPost: nat,
    nextPublisher: nat)

  ghost predicate KeysBelow<V>(table: map<nat, V>, bound: nat) {
    forall k :: k in table ==> k < bound
  }

  ghost predicate CountersAhead(t: Tables) {
    KeysBelow(t.users, t.nextUser) && KeysBelow(t.posts, t.nextPost) && KeysBelow(t.publishers, t.nextPublisher)
  }

  /** Every id in use was handed out by its table's counter. */
  type Store = t: Tables | CountersAhead(t) witness Tables(map[], map[], map[], 0, 0, 0)

  /** A post reference to a publisher is absent or names an existing row
      (the foreign key on posts.publisher_id). */
  predicate PublisherRefOk(publishers: map<PublisherId, Publisher>, p: Post) {
    p.publisher.None? || p.publisher.value in publishers
  }

  ghost predicate NamesUnique(publishers: map<PublisherId, Publisher>) {
    forall a, b :: a in publishers && b in publishers && a != b ==> publishers[a].name != publishers[b].name
  }

  /** What the foreign keys, the unique name index and the field validations
      guarantee of every stored row. */
  ghost predicate Consistent(s: Store) {
    && (forall id :: id in s.posts ==> s.posts[id].owner in s.users)
    && (forall id :: id in s.posts ==> PublisherRefOk(s.publishers, s.posts[id]))
    && (forall id :: id in s.posts ==> PostFieldsValid(s.posts[id]))
    && (forall id :: id in s.publishers ==> PublisherFieldsValid(s.publishers[id]))
    && NamesUnique(s.publishers)
  }

  /** Consistent, and every stored post would pass validation again: its
      owner still holds the `user` role. */
  ghost predicate Valid(s: Store) {
    Consistent(s) && forall id :: id in s.posts ==> PostValid(s.users, s.posts[id])
  }

  /** How a request ends. `Invalid` carries the record's error set; `Fault`
      is a database constraint raising (a dangling publisher id). */
  datatype Outcome<T> =
    | Ok(value: T)
    | Unauthenticated
    | Denied
    | NotFound
    | BadRequest
    | Invalid(problems: set<Problem>)
    | Fault

  datatype Reply<T> = Reply(outcome: Outcome<T>, store: Store)

  /** The signed-in user, if the session names an existing account. */
  function Authenticate(s: Store, session: Option<UserId>): (who: Option<UserId>)
    ensures who.Some? ==> who == session && who.value in s.users
    ensures who.None? ==> session.None? || session.value !in s.users
  {
    if session.Some? && session.value in s.users then session else None
  }

  function Stamps(posts: map<PostId, Post>): (r: map<nat, nat>)
    ensures forall id :: id in posts ==> Stamp(r, id) == posts[id].createdAt
  {
    map id | id in posts :: posts[id].createdAt
  }

  /** The posts `keep` accepts, ordered `created_at: :desc` (ties: the later
      id first). */
  function PostsNewestFirst(s: Store, keep: Post -> bool): (xs: seq<PostId>)
    ensures forall id :: id in xs <==> id in s.posts && keep(s.posts[id])
    ensures SortedBy(NewestFirst(Stamps(s.posts)), xs)
    ensures forall i, j :: 0 <= i < j < |xs| ==> s.posts[xs[i]].createdAt >= s.posts[xs[j]].createdAt
    ensures Distinct(xs)
  {
    var o := NewestFirst(Stamps(s.posts));
    var xs := Sort(o, Select(s.posts, s.nextPost, keep));
    SortedIsDistinct(o, xs);
    assert forall i :: 0 <= i < |xs| ==> xs[i] in xs;
    xs
  }

  function Names(publishers: map<PublisherId, Publisher>): (r: map<nat, string>)
    ensures forall id :: id in publishers ==> TextKey(r, id) == publishers[id].name
  {
    map id | id in publishers :: publishers[id].name
  }

  /** The publishers (all, or only the active ones) ordered by name. */
  function PublishersByName(s: Store, onlyActive: bool): (xs: seq<PublisherId>)
    ensures forall id :: id in xs <==> id in s.publishers && (onlyActive ==> s.publishers[id].active)
    ensures SortedBy(ByText(Names(s.publishers)), xs)
    ensures forall i, j :: 0 <= i < j < |xs| ==> !TextBefore(s.publishers[xs[j]].name, s.publishers[xs[i]].name)
    ensures Distinct(xs)
  {
    var o := ByText(Names(s.publishers));
    var pool := if onlyActive then Active(s.publishers) else s.publishers;
    var xs := Sort(o, Select(pool, s.nextPublisher, (q: Publisher) => true));
    SortedIsDistinct(o, xs);
    assert forall i, j :: 0 <= i < j < |xs| ==> xs[i] in xs && xs[j] in xs && Before(o, xs[i], xs[j]);
    forall i, j | 0 <= i < j < |xs|
      ensures !TextBefore(s.publishers[xs[j]].name, s.publishers[xs[i]].name)
    {
      ByTextAscending(Names(s.publishers), xs[i], xs[j]);
    }
    xs
  }

  function Emails(users: map<UserId, Account>): (r: map<nat, string>)
    ensures forall id :: id in users ==> TextKey(r, id) == users[id].email
  {
    map id | id in users :: users[id].email
  }

  /** Every account, ordered by email. */
  function UsersByEmail(s: Store): (xs: seq<UserId>)
    ensures forall id :: id in xs <==> id in s.users
    ensures SortedBy(ByText(Emails(s.users)), xs)
    ensures forall i, j :: 0 <= i < j < |xs| ==> !TextBefore(s.users[xs[j]].email, s.users[xs[i]].email)
    ensures Distinct(xs)
  {
    var o := ByText(Emails(s.users));
    var xs := Sort(o, Select(s.users, s.nextUser, (a: Account) => true));
    SortedIsDistinct(o, xs);
    assert forall i, j :: 0 <= i < j < |xs| ==> xs[i] in xs && xs[j] in xs && Before(o, xs[i], xs[j]);
    forall i, j | 0 <= i < j < |xs|
      ensures !TextBefore(s.users[xs[j]].email, s.users[xs[i]].email)
    {
      ByTextAscending(Emails(s.users), xs[i], xs[j]);
    }
    xs
  }

  /** Destroying an account destroys its posts first (`dependent: :destroy`). */
  function DestroyUser(s: Store, u: UserId): (r: Store)
    ensures r.users == s.users - {u}
    ensures forall id :: id in r.posts <==> id in s.posts && s.posts[id].owner != u
    ensures forall id :: id in r.posts ==> r.posts[id] == s.posts[id]
    ensures r.publishers == s.publishers
    ensures Consistent(s) ==> Consistent(r)
    ensures Valid(s) ==> Valid(r)
  {
    s.(users := s.users - {u}, posts := s.posts - ByUser(s.posts, u).Keys)
  }

  /** Destroying a publisher clears the reference of each of its posts
      (`dependent: :nullify`). */
  function Nullify(posts: map<PostId, Post>, pid: PublisherId): (r: map<PostId, Post>)
    ensures r.Keys == posts.Keys && |r| == |posts|
    ensures forall id :: id in r ==> r[id].publisher != Some(pid)
    ensures forall id :: id in r && posts[id].publisher == Some(pid) ==> r[id] == posts[id].(publisher := None)
    ensures forall id :: id in r && posts[id].publisher != Some(pid) ==> r[id] == posts[id]
  {
    var r := map id | id in posts :: if posts[id].publisher == Some(pid) then posts[id].(publisher := None) else posts[id];
    assert r.Keys == posts.Keys;
    r
  }

  /** Destroying a publisher row: its posts stay, unattributed. */
  function DestroyPublisher(s: Store, pid: PublisherId): (r: Store)
    ensures r.publishers == s.publishers - {pid}
    ensures r.users == s.users
    ensures r.posts == Nullify(s.posts, pid)
    ensures Consistent(s) ==> Consistent(r)
    ensures Valid(s) ==> Valid(r)
  {
    var r: Store := s.(publishers := s.publishers - {pid}, posts := Nullify(s.posts, pid));
    NullifyKeepsIntegrity(s, r, pid);
    r
  }

  lemma NullifyKeepsIntegrity(s: Store, r: Store, pid: PublisherId)
    requires r == s.(publishers := s.publishers - {pid}, posts := Nullify(s.posts, pid))
    ensures Consistent(s) ==> Consistent(r)
    ensures Valid(s) ==> Valid(r)
  {
    if Consistent(s) {
      NullifyKeepsConsistent(s, r, pid);
    }
    if Valid(s) {
      NullifyKeepsValid(s, r, pid);
    }
  }

  /** Clearing references changes neither owners nor title and content, and
      leaves no reference to the removed row. */
  lemma NullifyKeepsFields(s: Store, r: Store, pid: PublisherId)
    requires r == s.(publishers := s.publishers - {pid}, posts := Nullify(s.posts, pid))
    ensures r.users == s.users && r.posts.Keys == s.posts.Keys
    ensures forall id :: id in r.posts ==>
              && r.posts[id].owner == s.posts[id].owner
              && r.posts[id].title == s.posts[id].title && r.posts[id].content == s.posts[id].content
              && (r.posts[id].publisher.None? || r.posts[id].publisher == s.posts[id].publisher)
              && r.posts[id].publisher != Some(pid)
  {
  }

  lemma NullifyKeepsConsistent(s: Store, r: Store, pid: PublisherId)
    requires r == s.(publishers := s.publishers - {pid}, posts := Nullify(s.posts, pid))
    requires Consistent(s)
    ensures Consistent(r)
  {
    NullifyKeepsFields(s, r, pid);
    assert forall id :: id in r.posts ==> r.posts[id].owner in r.users;
    assert forall id :: id in r.posts ==> PostFieldsValid(r.posts[id]);
    assert forall id :: id in r.posts ==> PublisherRefOk(r.publishers, r.posts[id]);
    assert forall id :: id in r.publishers ==> PublisherFieldsValid(r.publishers[id]);
    assert NamesUnique(r.publishers);
  }

  lemma NullifyKeepsValid(s: Store, r: Store, pid: PublisherId)
    requires r == s.(publishers := s.publishers - {pid}, posts := Nullify(s.posts, pid))
    requires Valid(s)
    ensures Valid(r)
  {
    NullifyKeepsConsistent(s, r, pid);
    NullifyKeepsFields(s, r, pid);
    forall id | id in r.posts
      ensures PostValid(r.users, r.posts[id])
    {
      assert PostValid(s.users, s.posts[id]);
      assert PostFieldsValid(r.posts[id]);
    }
  }
}

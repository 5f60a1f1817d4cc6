/** The three persisted records (app/models/user.rb, post.rb, publisher.rb),
    their field validations, and the model scopes `by_user` and `active`. */
module Records {
  import opened Options
  import opened Roles

  type UserId = nat
  type PostId = nat
  type PublisherId = nat

  /** A row of the users table, with the authentication columns left out. */
  datatype Account = Account(email: string, role: Role)

  datatype Status = Draft | Published

  /** A nil title or content is held as "": the length validator reads nil
      as length 0, so the verdict is the same. */
  datatype Post = Post(
    title: string,
    content: string,
    owner: UserId,
    status: Status,
    publisher: Option<PublisherId>,
    createdAt: nat)

  datatype Publisher = Publisher(name: string, description: Option<string>, active: bool)

  /** One entry per failing validation, as the record's error set. */
  datatype Problem =
    | TitleBlank | TitleTooShort | TitleTooLong
    | ContentBlank | ContentTooShort
    | OwnerMissing | OwnerNotAuthor
    | NameBlank | NameTooShort | NameTooLong | NameTaken
    | DescriptionTooLong

  const MinTitle: nat := 3
  const MaxTitle: nat := 100
  const MinContent: nat := 10
  const MinName: nat := 2
  const MaxName: nat := 100
  const MaxDescription: nat := 500

  /** ASCII whitespace, as the `presence` validator's blank test sees it. */
  predicate IsSpace(c: char) {
    c == ' ' || c == '\t' || c == '\n' || c == '\r' || c == '\U{000B}' || c == '\U{000C}'
  }

  /** Empty or whitespace only; such a value fails `presence: true`. */
  predicate Blank(s: string) {
    forall i :: 0 <= i < |s| ==> IsSpace(s[i])
  }

  /** The error set of saving post `p` when the users table is `users`. */
  function PostProblems(users: map<UserId, Account>, p: Post): (r: set<Problem>)
    ensures TitleBlank in r <==> Blank(p.title)
    ensures TitleTooShort in r <==> |p.title| < MinTitle
    ensures TitleTooLong in r <==> |p.title| > MaxTitle
    ensures ContentBlank in r <==> Blank(p.content)
    ensures ContentTooShort in r <==> |p.content| < MinContent
    ensures OwnerMissing in r <==> p.owner !in users
    ensures OwnerNotAuthor in r <==> p.owner in users && users[p.owner].role != User
    ensures r <= {TitleBlank, TitleTooShort, TitleTooLong, ContentBlank, ContentTooShort, OwnerMissing, OwnerNotAuthor}
  {
    (if Blank(p.title) then {TitleBlank} else {})
    + (if |p.title| < MinTitle then {TitleTooShort} else {})
    + (if |p.title| > MaxTitle then {TitleTooLong} else {})
    + (if Blank(p.content) then {ContentBlank} else {})
    + (if |p.content| < MinContent then {ContentTooShort} else {})
    + (if p.owner !in users then {OwnerMissing}
       else if !users[p.owner].role.User? then {OwnerNotAuthor}
       else {})
  }

  /** The title and content validations alone. */
  predicate PostFieldsValid(p: Post) {
    && !Blank(p.title) && MinTitle <= |p.title| <= MaxTitle
    && !Blank(p.content) && MinContent <= |p.content|
  }

  /** A post passes validation exactly when its fields are valid and its
      owner exists and holds the `user` role. The publisher reference takes
      no part in validation; a dangling one fails only at the foreign key. */
  function PostValid(users: map<UserId, Account>, p: Post): (ok: bool)
    ensures ok ==> MinTitle <= |p.title| <= MaxTitle
    ensures ok ==> MinContent <= |p.content|
    ensures ok ==> p.owner in users
    ensures p.owner in users && users[p.owner].role != User ==> !ok
    ensures ok <==> PostFieldsValid(p) && p.owner in users && users[p.owner].role == User
  {
    PostProblems(users, p) == {}
  }

  /** Some publisher other than `self` already carries `name`. */
  predicate NameTakenBy(publishers: map<PublisherId, Publisher>, self: Option<PublisherId>, name: string) {
    exists k :: k in publishers && Some(k) != self && publishers[k].name == name
  }

  /** The error set of saving `q` as publisher `self` (None for a new one). */
  function PublisherProblems(publishers: map<PublisherId, Publisher>, self: Option<PublisherId>, q: Publisher): (r: set<Problem>)
    ensures NameBlank in r <==> Blank(q.name)
    ensures NameTooShort in r <==> |q.name| < MinName
    ensures NameTooLong in r <==> |q.name| > MaxName
    ensures NameTaken in r <==> exists k :: k in publishers && Some(k) != self && publishers[k].name == q.name
    ensures DescriptionTooLong in r <==> q.description.Some? && |q.description.value| > MaxDescription
    ensures r <= {NameBlank, NameTooShort, NameTooLong, NameTaken, DescriptionTooLong}
  {
    (if Blank(q.name) then {NameBlank} else {})
    + (if |q.name| < MinName then {NameTooShort} else {})
    + (if |q.name| > MaxName then {NameTooLong} else {})
    + (if NameTakenBy(publishers, self, q.name) then {NameTaken} else {})
    + (if q.description.Some? && |q.description.value| > MaxDescription then {DescriptionTooLong} else {})
  }

  /** The validations of a publisher that do not depend on the others. */
  predicate PublisherFieldsValid(q: Publisher) {
    && !Blank(q.name) && MinName <= |q.name| <= MaxName
    && (q.description.Some? ==> |q.description.value| <= MaxDescription)
  }

  function PublisherValid(publishers: map<PublisherId, Publisher>, self: Option<PublisherId>, q: Publisher): (ok: bool)
    ensures ok ==> MinName <= |q.name| <= MaxName
    ensures ok && q.description.Some? ==> |q.description.value| <= MaxDescription
    ensures ok ==> forall k :: k in publishers && Some(k) != self ==> publishers[k].name != q.name
    ensures ok <==> PublisherFieldsValid(q) && !NameTakenBy(publishers, self, q.name)
  {
    PublisherProblems(publishers, self, q) == {}
  }

  /** The `by_user` scope. */
  function ByUser(posts: map<PostId, Post>, u: UserId): (r: map<PostId, Post>)
    ensures forall id :: id in r <==> id in posts && posts[id].owner == u
    ensures forall id :: id in r ==> r[id] == posts[id]
  {
    map id | id in posts && posts[id].owner == u :: posts[id]
  }

  /** The `active` scope. */
  function Active(publishers: map<PublisherId, Publisher>): (r: map<PublisherId, Publisher>)
    ensures forall id :: id in r <==> id in publishers && publishers[id].active
    ensures forall id :: id in r ==> r[id] == publishers[id]
  {
    map id | id in publishers && publishers[id].active :: publishers[id]
  }

  /** A post whose owner is an admin or a master fails validation, whatever
      its title, content, status and publisher. */
  lemma NonAuthorOwnerInvalid(users: map<UserId, Account>, p: Post)
    requires p.owner in users && users[p.owner].role in {Admin, Master}
    ensures !PostValid(users, p)
    ensures OwnerNotAuthor in PostProblems(users, p)
  {
  }

  /** Clearing or changing the publisher reference never changes validity. */
  lemma PublisherReferenceIrrelevant(users: map<UserId, Account>, p: Post, q: Option<PublisherId>)
    ensures PostValid(users, p.(publisher := q)) == PostValid(users, p)
  {
  }

  /** Every post belongs to the `by_user` scope of exactly its owner. */
  lemma ByUserPartitions(posts: map<PostId, Post>, id: PostId, u: UserId, v: UserId)
    requires id in ByUser(posts, u) && id in ByUser(posts, v)
    ensures u == v
  {
  }

  lemma StatusIsExactlyOne(st: Status)
    ensures st == Draft || st == Published
    ensures st != Draft || st != Published
  {
  }
}

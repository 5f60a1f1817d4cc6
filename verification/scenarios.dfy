/** Concrete request sequences on a small store: one author (id 0), one
    admin (id 1) and one master (id 2), no posts and no publishers. */
module Scenarios {
  import opened Options
  import opened Roles
  import opened Records
  import opened Database
  import PostsController
  import PublishersController
  import AuthorizationController

  function Seed(): (s: Store)
    ensures Valid(s)
  {
    Tables(map[0 := Account("author@example.com", User),
               1 := Account("admin@example.com", Admin),
               2 := Account("master@example.com", Master)],
           map[], map[], 3, 0, 0)
  }

  /** A two-letter title and five-letter content are refused with both
      length errors; the store does not change. */
  lemma ShortPostRefused()
    ensures var r := PostsController.Create(Seed(), Some(0),
              Some(PostsController.PostParams(Some("Hi"), Some("short"), None, None)), false, 1);
            && r.outcome == Invalid({TitleTooShort, ContentTooShort})
            && r.store == Seed()
  {
    assert !Blank("Hi") by { assert !IsSpace("Hi"[0]); }
    assert !Blank("short") by { assert !IsSpace("short"[0]); }
  }

  /** A long enough post is saved, owned by the author and published by
      default; pressing the draft button instead saves it as a draft. */
  lemma ValidPostSaved()
    ensures var params := PostsController.PostParams(Some("Hello World"), Some("This is long enough content."), None, None);
            var r := PostsController.Create(Seed(), Some(0), Some(params), false, 1);
            var d := PostsController.Create(Seed(), Some(0), Some(params), true, 1);
            && r.outcome == Ok(0) && r.store.posts[0].status == Published && r.store.posts[0].owner == 0
            && d.outcome == Ok(0) && d.store.posts[0].status == Draft
  {
    assert !Blank("Hello World") by { assert !IsSpace("Hello World"[0]); }
    assert !Blank("This is long enough content.") by { assert !IsSpace("This is long enough content."[0]); }
  }

  /** An admin's post is refused by the role gate, however valid it is. */
  lemma AdminPostDenied()
    ensures var params := PostsController.PostParams(Some("Hello World"), Some("This is long enough content."), None, None);
            PostsController.Create(Seed(), Some(1), Some(params), false, 1) == Reply(Denied, Seed())
  {
  }

  /** The second of two publishers named alike is refused; the first stays. */
  lemma SecondPublisherWithSameNameRefused()
    ensures var params := PublishersController.PublisherParams(Some("Tech Weekly"), None, None);
            var first := PublishersController.Create(Seed(), Some(2), Some(params));
            var second := PublishersController.Create(first.store, Some(2), Some(params));
            && first.outcome == Ok(0)
            && second.outcome == Invalid({NameTaken})
            && second.store.publishers == map[0 := Publisher("Tech Weekly", None, true)]
  {
    assert !Blank("Tech Weekly") by { assert !IsSpace("Tech Weekly"[0]); }
    var first := PublishersController.Create(Seed(), Some(2), Some(PublishersController.PublisherParams(Some("Tech Weekly"), None, None)));
    assert NameTakenBy(first.store.publishers, None, "Tech Weekly") by {
      assert 0 in first.store.publishers;
    }
  }

  /** The master promotes the author to admin: publisher management opens,
      post creation closes. */
  lemma MasterPromotesAuthor()
    ensures var r := AuthorizationController.UpdateUserRole(Seed(), Some(2), 0, Admin);
            && r.outcome.Ok?
            && CanManagePublishers(r.store.users[0].role)
            && !CanCreatePosts(r.store.users[0].role)
            && PublishersController.New(r.store, Some(0)) == Ok(())
            && PostsController.New(r.store, Some(0)) == Denied
  {
  }
}

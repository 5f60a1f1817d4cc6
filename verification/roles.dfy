/** The role enumeration of app/models/user.rb and the five permission
    predicates defined on it. */
module Roles {

  /** Stored as the integers 0, 1 and 2; modelled as a closed enumeration. */
  datatype Role = User | Admin | Master

  /** Only the base tier may author posts. */
  function CanCreatePosts(r: Role): (ok: bool)
    ensures ok <==> r != Admin && r != Master
  {
    r.User?
  }

  /** The two elevated tiers, which are exactly the roles that may not author. */
  function CanManagePublishers(r: Role): (ok: bool)
    ensures ok <==> !CanCreatePosts(r)
  {
    r.Admin? || r.Master?
  }

  /** Defined by the source but consulted by none of the modelled handlers. */
  function CanSeePublisher(r: Role): (ok: bool)
    ensures !ok <==> r == Admin
  {
    r.User? || r.Master?
  }

  /** The top tier only: it also manages publishers and does not author. */
  function CanManageUsers(r: Role): (ok: bool)
    ensures ok ==> CanManagePublishers(r) && !CanCreatePosts(r)
    ensures ok <==> r != User && r != Admin
  {
    r.Master?
  }

  function CanAccessAuthorization(r: Role): (ok: bool)
    ensures ok <==> CanManageUsers(r)
  {
    r.Master?
  }

  /** A role is exactly one of the three values. */
  lemma RoleIsExactlyOne(r: Role)
    ensures r == User || r == Admin || r == Master
    ensures !(r == User && r == Admin) && !(r == User && r == Master) && !(r == Admin && r == Master)
  {
  }

  lemma CreatePostsIffUser(r: Role)
    ensures CanCreatePosts(r) <==> r == User
  {
  }

  /** Authoring and publisher management split the roles between them. */
  lemma CreateAndManageComplementary(r: Role)
    ensures CanCreatePosts(r) != CanManagePublishers(r)
  {
  }

  /** The admin tier is the one role that may not see publishers. */
  lemma SeePublisherExcludesOnlyAdmin(r: Role)
    ensures CanSeePublisher(r) <==> r != Admin
  {
  }

  lemma UserManagementMatchesAuthorizationAccess(r: Role)
    ensures CanManageUsers(r) == CanAccessAuthorization(r)
    ensures CanManageUsers(r) <==> r == Master
  {
  }
}

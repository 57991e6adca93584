// Who belongs to which organization, as the startup migrations list it in creation order.
module Memberships {
  import opened Wrappers

  datatype Membership = Membership(user: int, org: int)

  // `org` is the organization of the user's first link; there is none when the user has no link.
  ghost predicate FirstJoined(links: seq<Membership>, user: int, org: Option<int>) {
    match org
    case None => forall j: nat :: j < |links| ==> links[j].user != user
    case Some(o) =>
      exists k: nat ::
        k < |links| && links[k] == Membership(user, o) && forall j: nat :: j < k ==> links[j].user != user
  }

  lemma FirstJoinedUnfold(links: seq<Membership>, user: int, org: Option<int>)
    requires links != []
    ensures FirstJoined(links, user, org) <==>
              if links[0].user == user then org == Some(links[0].org) else FirstJoined(links[1..], user, org)
  {
    if org.None? {
      assert forall j: nat :: j < |links[1..]| ==> links[1..][j] == links[j + 1];
      assert FirstJoined(links, user, org) && links[0].user != user ==> FirstJoined(links[1..], user, org);
      if links[0].user != user && FirstJoined(links[1..], user, org) {
        forall j: nat | j < |links| ensures links[j].user != user {
          assert j > 0 ==> links[1..][j - 1] == links[j];
        }
      }
    } else if links[0].user == user {
      assert links[0] == Membership(user, links[0].org);
    } else {
      if FirstJoined(links, user, org) {
        var k: nat :| k < |links| && links[k] == Membership(user, org.value) && forall j: nat :: j < k ==> links[j].user != user;
        assert links[1..][k - 1] == links[k];
      }
      if FirstJoined(links[1..], user, org) {
        var k: nat :| k < |links[1..]| && links[1..][k] == Membership(user, org.value) && forall j: nat :: j < k ==> links[1..][j].user != user;
        assert links[k + 1] == links[1..][k];
        forall j: nat | j < k + 1 ensures links[j].user != user {
          assert j > 0 ==> links[1..][j - 1] == links[j];
        }
      }
    }
  }

  lemma FirstJoinedUnique(links: seq<Membership>, user: int, a: Option<int>, b: Option<int>)
    requires FirstJoined(links, user, a) && FirstJoined(links, user, b)
    ensures a == b
  {
    if a.Some? && b.Some? {
      var i: nat :| i < |links| && links[i] == Membership(user, a.value) && forall j: nat :: j < i ==> links[j].user != user;
      var k: nat :| k < |links| && links[k] == Membership(user, b.value) && forall j: nat :: j < k ==> links[j].user != user;
      assert i == k;
    }
  }

  lemma FirstOfNone(user: int, org: Option<int>)
    ensures FirstJoined([], user, org) <==> org.None?
  {
  }
}

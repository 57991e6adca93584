// The membership store and the service that reads, counts and writes it, one write at a time.
module OrgService {
  import opened Wrappers
  import opened OrgSpec
  import opened OrgInvariants
  import opened OrgAccountDeletion

  // Seats of the table, in the order they were created.
  ghost predicate Ordered(db: Db, links: seq<Seat>) {
    && (forall k :: 0 <= k < |links| ==> links[k] in db.seats)
    && (forall i, j :: 0 <= i < j < |links| ==> db.seats[links[i]].joined <= db.seats[links[j]].joined)
  }

  // The store. `history` records the table after every single write.
  class OrganizationsRepository {
    var db: Db
    ghost var history: seq<Db>

    constructor ()
      ensures db == Db(map[], map[], 0, 0) && history == []
    {
      db := Db(map[], map[], 0, 0);
      history := [];
    }

    method FindMembership(user: nat, org: nat) returns (r: Option<Row>)
      ensures r == if Seat(user, org) in db.seats then Some(db.seats[Seat(user, org)]) else None
    {
      if Seat(user, org) in db.seats {
        return Some(db.seats[Seat(user, org)]);
      }
      return None;
    }

    method FindById(org: nat) returns (r: Option<Org>)
      ensures r == if org in db.orgs then Some(db.orgs[org]) else None
    {
      if org in db.orgs {
        return Some(db.orgs[org]);
      }
      return None;
    }

    method EarliestOf(among: set<Seat>) returns (s: Seat)
      requires among != {} && among <= db.seats.Keys
      ensures IsEarliest(db, among, s)
    {
      s :| s in among;
      var rest := among - {s};
      while rest != {}
        invariant s in among && rest <= among
        invariant forall t :: t in among - rest ==> db.seats[s].joined <= db.seats[t].joined
        decreases rest
      {
        var t :| t in rest;
        if db.seats[t].joined < db.seats[s].joined {
          s := t;
        }
        rest := rest - {t};
      }
    }

    // ORDER BY created_at ASC
    method OrderByJoined(among: set<Seat>) returns (links: seq<Seat>)
      requires among <= db.seats.Keys
      ensures |links| == |among| && forall s :: s in links <==> s in among
      ensures Ordered(db, links)
    {
      links := [];
      var rest := among;
      while rest != {}
        invariant rest <= among && |links| == |among| - |rest|
        invariant forall s :: s in links <==> s in among - rest
        invariant Ordered(db, links)
        invariant forall i, t :: 0 <= i < |links| && t in rest ==> db.seats[links[i]].joined <= db.seats[t].joined
        decreases rest
      {
        var s := EarliestOf(rest);
        links := links + [s];
        rest := rest - {s};
      }
    }

    method ListMembershipsForOrganization(org: nat) returns (links: seq<Seat>)
      ensures |links| == |MembersOf(db, org)|
      ensures forall s :: s in links <==> s in db.seats && s.org == org
      ensures Ordered(db, links)
    {
      var among := set s | s in db.seats && s.org == org;
      links := OrderByJoined(among);
      SameSize(db, org, among);
    }

    method ListMembershipsForUser(user: nat) returns (links: seq<Seat>)
      ensures forall s :: s in links <==> s in SeatsOf(db, user)
      ensures Ordered(db, links)
    {
      links := OrderByJoined(SeatsOf(db, user));
    }

    method CountOwnersForOrganization(org: nat) returns (n: nat)
      ensures n == |OwnersOf(db, org)|
    {
      n := |OwnersOf(db, org)|;
    }

    method CountOrganizationsWhereUserIsOwner(user: nat) returns (n: nat)
      ensures n == |OwnedBy(db, user)|
    {
      n := |OwnedBy(db, user)|;
    }

    method ListOwnerUserIds(org: nat) returns (ids: seq<nat>)
      ensures forall u :: u in ids <==> u in OwnersOf(db, org)
    {
      ids := [];
      var rest := OwnersOf(db, org);
      while rest != {}
        invariant rest <= OwnersOf(db, org)
        invariant forall u :: u in ids <==> u in OwnersOf(db, org) - rest
        decreases rest
      {
        var u :| u in rest;
        ids := ids + [u];
        rest := rest - {u};
      }
    }

    method SaveOwnerId(org: nat, ownerId: nat)
      requires org in db.orgs
      modifies this
      ensures db == old(db).(orgs := old(db).orgs[org := old(db).orgs[org].(ownerId := ownerId)])
      ensures history == old(history) + [db]
    {
      db := db.(orgs := db.orgs[org := db.orgs[org].(ownerId := ownerId)]);
      history := history + [db];
    }

    // A new organization row gets a fresh id.
    method SaveNewOrganization(name: string, ownerId: nat) returns (org: nat)
      modifies this
      ensures org == old(db).nextOrg
      ensures db == old(db).(orgs := old(db).orgs[org := Org(name, ownerId)], nextOrg := org + 1)
      ensures history == old(history) + [db]
    {
      org := db.nextOrg;
      db := db.(orgs := db.orgs[org := Org(name, ownerId)], nextOrg := org + 1);
      history := history + [db];
    }

    method SaveNewMembership(user: nat, org: nat, role: Role)
      modifies this
      ensures db == old(db).(seats := old(db).seats[Seat(user, org) := Row(role, old(db).clock)], clock := old(db).clock + 1)
      ensures history == old(history) + [db]
    {
      db := db.(seats := db.seats[Seat(user, org) := Row(role, db.clock)], clock := db.clock + 1);
      history := history + [db];
    }

    method DeleteMembership(user: nat, org: nat) returns (affected: nat)
      modifies this
      ensures db == RemoveSeat(old(db), Seat(user, org)) && history == old(history) + [db]
      ensures affected == if Seat(user, org) in old(db).seats then 1 else 0
    {
      affected := if Seat(user, org) in db.seats then 1 else 0;
      db := RemoveSeat(db, Seat(user, org));
      history := history + [db];
    }

    method UpdateMembershipRole(user: nat, org: nat, role: Role) returns (affected: nat)
      modifies this
      ensures db == SetRole(old(db), Seat(user, org), role) && history == old(history) + [db]
      ensures affected == if Seat(user, org) in old(db).seats then 1 else 0
    {
      affected := if Seat(user, org) in db.seats then 1 else 0;
      db := SetRole(db, Seat(user, org), role);
      history := history + [db];
    }

    // One transaction: memberships and organization go together.
    method DeleteOrganization(org: nat)
      modifies this
      ensures db == DropOrg(old(db), org) && history == old(history) + [db]
    {
      db := DropOrg(db, org);
      history := history + [db];
    }
  }

  lemma {:induction false} SizeByUser(seats: set<Seat>, org: nat, users: set<nat>)
    requires forall s :: s in seats ==> s.org == org
    requires forall u :: u in users <==> Seat(u, org) in seats
    ensures |seats| == |users|
    decreases |seats|
  {
    if seats == {} {
      assert users == {};
    } else {
      var s :| s in seats;
      assert s == Seat(s.user, org);
      SizeByUser(seats - {s}, org, users - {s.user});
    }
  }

  lemma SameSize(db: Db, org: nat, seats: set<Seat>)
    requires forall s :: s in seats <==> s in db.seats && s.org == org
    ensures |seats| == |MembersOf(db, org)|
  {
    SizeByUser(seats, org, MembersOf(db, org));
  }

  // Every write since `from` left every organization that has members with an owner.
  ghost predicate OwnedSince(history: seq<Db>, from: nat) {
    forall k :: from <= k < |history| ==> EveryOrgOwned(history[k])
  }

  lemma OwnedSinceMore(history: seq<Db>, from: nat, next: Db)
    requires OwnedSince(history, from) && EveryOrgOwned(next)
    ensures OwnedSince(history + [next], from)
  {
  }

  // ----- the service ---------------------------------------------------------

  class OrganizationsService {
    const repo: OrganizationsRepository
    const selfHosted: bool

    constructor (repo: OrganizationsRepository, selfHosted: bool)
      ensures this.repo == repo && this.selfHosted == selfHosted
    {
      this.repo := repo;
      this.selfHosted := selfHosted;
    }

    method MinOf(ids: seq<nat>) returns (m: nat)
      requires ids != []
      ensures m in ids && forall x :: x in ids ==> m <= x
    {
      m := ids[0];
      for i := 1 to |ids|
        invariant m in ids && forall k :: 0 <= k < i ==> m <= ids[k]
      {
        if ids[i] < m {
          m := ids[i];
        }
      }
    }

    method SyncLegacyOwnerIdColumn(org: nat)
      requires EveryOrgOwned(repo.db)
      modifies repo
      ensures repo.db == Sync(old(repo.db), org)
      ensures repo.history == old(repo.history) || repo.history == old(repo.history) + [repo.db]
      ensures EveryOrgOwned(repo.db)
    {
      SyncOwners(repo.db, org);
      var ownerIds := repo.ListOwnerUserIds(org);
      if |ownerIds| == 0 {
        assert OwnersOf(repo.db, org) == {};
        return;
      }
      var nextOwnerId := MinOf(ownerIds);
      LeastIs(OwnersOf(repo.db, org), nextOwnerId);
      var orgRow := repo.FindById(org);
      if orgRow.None? || orgRow.value.ownerId == nextOwnerId {
        SyncNoChange(repo.db, org);
        return;
      }
      repo.SaveOwnerId(org, nextOwnerId);
    }

    method AssertNotSelfHostedRootOrg(org: nat) returns (ok: bool)
      ensures ok <==> !IsProtected(repo.db, org, selfHosted)
    {
      if !selfHosted {
        return true;
      }
      var row := repo.FindById(org);
      return !(row.Some? && row.value.name == ROOT_ORG);
    }

    method AssertKeepsAtLeastOneOwned(user: nat, org: nat) returns (ok: bool)
      ensures ok <==> !LosesLastOwned(repo.db, user, org)
    {
      var m := repo.FindMembership(user, org);
      if m.None? || m.value.role != Owner {
        return true;
      }
      var owned := repo.CountOrganizationsWhereUserIsOwner(user);
      return owned > 1;
    }

    // The organization row is saved before the membership row: in between it has no member at all.
    method Create(user: nat, name: string)
      requires Inv(repo.db)
      modifies repo
      ensures repo.db == OrgSpec.Create(old(repo.db), user, name)
      ensures old(repo.history) <= repo.history && OwnedSince(repo.history, |old(repo.history)|)
    {
      CreateKeeps(repo.db, user, name);
      InvOwned(OrgSpec.Create(repo.db, user, name));
      InvOwned(repo.db);
      ghost var before := repo.db;
      var org := repo.SaveNewOrganization(name, user);
      SameSeatsOwned(before, repo.db);
      repo.SaveNewMembership(user, org, Owner);
      assert repo.db == OrgSpec.Create(before, user, name);
    }

    method AddMemberByUserId(org: nat, user: nat, userExists: bool) returns (r: Result<()>)
      requires Inv(repo.db)
      modifies repo
      ensures var spec := AddMember(old(repo.db), org, user, userExists);
              if spec.Ok? then r == Ok(()) && repo.db == spec.value else r == Err(spec.failure) && repo.db == old(repo.db)
      ensures old(repo.history) <= repo.history && OwnedSince(repo.history, |old(repo.history)|)
    {
      AddKeeps(repo.db, org, user, userExists);
      ghost var spec := AddMember(repo.db, org, user, userExists);
      if spec.Ok? { InvOwned(spec.value); }
      hide Inv, EveryOrgOwned, OwnedSince;
      ghost var was := repo.history;
      OwnedSinceNow(was);
      var orgRow := repo.FindById(org);
      if orgRow.None? || !userExists {
        return Err(NotFound);
      }
      var existing := repo.FindMembership(user, org);
      if existing.Some? {
        return Err(Conflict);
      }
      repo.SaveNewMembership(user, org, Member);
      OwnedSinceMore(was, |was|, repo.db);
      return Ok(());
    }

    // links.find((l) => l.userId !== userId)
    static method FindOther(links: seq<Seat>, user: nat) returns (i: nat)
      requires exists k :: 0 <= k < |links| && links[k].user != user
      ensures i < |links| && links[i].user != user && forall k :: 0 <= k < i ==> links[k].user == user
    {
      i := 0;
      while links[i].user == user
        invariant 0 <= i < |links| && forall k :: 0 <= k < i ==> links[k].user == user
        decreases |links| - i
      {
        i := i + 1;
      }
    }

    method LeaveOrganizationAsUser(user: nat, org: nat, accountDeletion: bool) returns (r: Result<Outcome>)
      requires Inv(repo.db)
      modifies repo
      ensures var spec := Leave(old(repo.db), user, org, accountDeletion, selfHosted);
              if spec.Ok? then r == Ok(spec.value.1) && repo.db == spec.value.0
              else r == Err(spec.failure) && repo.db == old(repo.db)
      ensures Inv(repo.db)
      ensures old(repo.history) <= repo.history && OwnedSince(repo.history, |old(repo.history)|)
    {
      hide OwnersOf, MembersOf, RemoveSeat, SetRole, DropOrg, Sync, Inv, EveryOrgOwned, Heir, OtherSeats, OwnedSince;
      hide LosesLastOwned, IsProtected;
      ghost var before := repo.db;
      ghost var from := |repo.history|;
      OwnedSinceNow(repo.history);
      var seat := Seat(user, org);
      ghost var spec := Leave(before, user, org, accountDeletion, selfHosted);
      if spec.Ok? {
        LeaveKeeps(before, user, org, accountDeletion, selfHosted);
        InvOwned(spec.value.0);
      }
      var membership := repo.FindMembership(user, org);
      if membership.None? {
        return Err(NotFound);
      }
      if membership.value.role != Owner {
        var n := repo.DeleteMembership(user, org);
        assert n == 1;
        OwnedSinceMore(old(repo.history), from, repo.db);
        return Ok(MemberLeft);
      }
      var links := repo.ListMembershipsForOrganization(org);
      SoleLink(before, org, user, links);
      if |links| == 1 {
        if !accountDeletion {
          var keeps := AssertKeepsAtLeastOneOwned(user, org);
          if !keeps {
            return Err(Conflict);
          }
        }
        var allowed := AssertNotSelfHostedRootOrg(org);
        if !allowed {
          return Err(Forbidden);
        }
        repo.DeleteOrganization(org);
        OwnedSinceMore(old(repo.history), from, repo.db);
        return Ok(OrgDissolved);
      }
      if !accountDeletion {
        var keeps := AssertKeepsAtLeastOneOwned(user, org);
        if !keeps {
          return Err(Conflict);
        }
      }
      var ownerCount := repo.CountOwnersForOrganization(org);
      SoleOwner(before, org, user);
      if ownerCount > 1 {
        var n := repo.DeleteMembership(user, org);
        assert n == 1;
        RemoveSeatKeeps(before, seat);
        InvOwned(repo.db);
        OwnedSinceMore(old(repo.history), from, repo.db);
        ghost var h := repo.history;
        SyncLegacyOwnerIdColumn(org);
        OwnedSinceMore(h, from, repo.db);
        return Ok(OwnerLeftMulti);
      }
      HasOthers(before, user, org);
      SomeOtherLink(before, org, user, links);
      var i := FindOther(links, user);
      FirstOtherIsHeir(before, org, user, links, i);
      var successor := links[i];
      var n := repo.UpdateMembershipRole(successor.user, org, Owner);
      SetRoleKeeps(before, successor, Owner);
      InvOwned(repo.db);
      OwnedSinceMore(old(repo.history), from, repo.db);
      ghost var h := repo.history;
      SyncLegacyOwnerIdColumn(org);
      OwnedSinceMore(h, from, repo.db);
      h := repo.history;
      n := repo.DeleteMembership(user, org);
      OwnedSinceMore(h, from, repo.db);
      return Ok(OwnerPromotedSuccessor);
    }

    method LeaveOrganization(user: nat, org: nat) returns (r: Result<Outcome>)
      requires Inv(repo.db)
      modifies repo
      ensures var spec := OrgSpec.LeaveOrganization(old(repo.db), user, org, selfHosted);
              if spec.Ok? then r == Ok(spec.value.1) && repo.db == spec.value.0
              else r == Err(spec.failure) && repo.db == old(repo.db)
      ensures old(repo.history) <= repo.history && OwnedSince(repo.history, |old(repo.history)|)
    {
      hide Leave, Inv;
      var allowed := AssertNotSelfHostedRootOrg(org);
      if !allowed {
        return Err(Forbidden);
      }
      r := LeaveOrganizationAsUser(user, org, false);
    }

    // The loop has no exit but an empty list or a refusal; each turn drops one of the user's seats.
    method RemoveUserFromAllOrganizationsForAccountDeletion(user: nat) returns (r: Result<()>)
      requires Inv(repo.db)
      modifies repo
      ensures repo.db == Purge(old(repo.db), user, selfHosted).db
      ensures r.Ok? <==> !Blocked(old(repo.db), user, selfHosted)
      ensures r.Ok? ==> SeatsOf(repo.db, user) == {} && repo.db == After(old(repo.db), user)
      ensures old(repo.history) <= repo.history && OwnedSince(repo.history, |old(repo.history)|)
    {
      hide Leave, Inv, EveryOrgOwned, Blocked, After, SeatsOf;
      ghost var before := repo.db;
      PurgeDone(before, user, selfHosted);
      if Purge(before, user, selfHosted).done {
        PurgeIsAfter(before, user, selfHosted);
      }
      while true
        invariant Inv(repo.db)
        invariant Purge(repo.db, user, selfHosted) == Purge(before, user, selfHosted)
        invariant old(repo.history) <= repo.history && OwnedSince(repo.history, |old(repo.history)|)
        decreases |SeatsOf(repo.db, user)|
      {
        var links := repo.ListMembershipsForUser(user);
        NoLinks(repo.db, user, links);
        if |links| == 0 {
          return Ok(());
        }
        FirstLinkIsFirstOrg(repo.db, user, links);
        ghost var now, h := repo.db, repo.history;
        var org := links[0].org;
        LeaveDropsSeat(now, user, org, true, selfHosted);
        SeatsShrink(SeatsOf(now, user), Seat(user, org));
        var left := LeaveOrganizationAsUser(user, org, true);
        OwnedSinceJoin(h, repo.history, |old(repo.history)|);
        if left.Err? {
          return Err(left.failure);
        }
      }
    }

    method SetMemberRole(org: nat, acting: nat, actingIsOwner: bool, target: nat, role: Role) returns (r: Result<()>)
      requires Inv(repo.db)
      modifies repo
      ensures var spec := OrgSpec.SetMemberRole(old(repo.db), org, acting, actingIsOwner, target, role);
              if spec.Ok? then r == Ok(()) && repo.db == spec.value else r == Err(spec.failure) && repo.db == old(repo.db)
      ensures old(repo.history) <= repo.history && OwnedSince(repo.history, |old(repo.history)|)
    {
      hide OwnersOf, OrgSpec.SetRole, Sync, Inv, EveryOrgOwned, OwnedSince, LosesLastOwned;
      ghost var before := repo.db;
      ghost var from := |repo.history|;
      OwnedSinceNow(repo.history);
      if !actingIsOwner {
        return Err(Forbidden);
      }
      if role == Owner && target == acting {
        return Err(BadRequest);
      }
      var membership := repo.FindMembership(target, org);
      if membership.None? {
        return Err(BadRequest);
      }
      if role == Owner && membership.value.role == Owner {
        return Err(BadRequest);
      }
      if role == Member && membership.value.role == Member {
        return Err(BadRequest);
      }
      if role == Member && membership.value.role == Owner {
        var ownerCount := repo.CountOwnersForOrganization(org);
        if ownerCount <= 1 {
          return Err(BadRequest);
        }
        NotAlone(OwnersOf(before, org), target);
        var keeps := AssertKeepsAtLeastOneOwned(target, org);
        if !keeps {
          return Err(Conflict);
        }
      }
      var n := repo.UpdateMembershipRole(target, org, role);
      SetRoleKeeps(before, Seat(target, org), role);
      InvOwned(repo.db);
      OwnedSinceMore(old(repo.history), from, repo.db);
      ghost var h := repo.history;
      SyncLegacyOwnerIdColumn(org);
      OwnedSinceMore(h, from, repo.db);
      return Ok(());
    }

    method RemoveMember(org: nat, acting: nat, actingIsOwner: bool, target: nat) returns (r: Result<()>)
      requires Inv(repo.db)
      modifies repo
      ensures var spec := OrgSpec.RemoveMember(old(repo.db), org, acting, actingIsOwner, target);
              if spec.Ok? then r == Ok(()) && repo.db == spec.value else r == Err(spec.failure) && repo.db == old(repo.db)
      ensures old(repo.history) <= repo.history && OwnedSince(repo.history, |old(repo.history)|)
    {
      hide OwnersOf, RemoveSeat, Sync, Inv, EveryOrgOwned, OwnedSince, LosesLastOwned;
      ghost var before := repo.db;
      ghost var from := |repo.history|;
      OwnedSinceNow(repo.history);
      if !actingIsOwner {
        return Err(Forbidden);
      }
      if target == acting {
        return Err(BadRequest);
      }
      var membership := repo.FindMembership(target, org);
      if membership.None? {
        return Err(BadRequest);
      }
      var targetWasOwner := membership.value.role == Owner;
      if targetWasOwner {
        var ownerCount := repo.CountOwnersForOrganization(org);
        if ownerCount <= 1 {
          return Err(BadRequest);
        }
        NotAlone(OwnersOf(before, org), target);
        var keeps := AssertKeepsAtLeastOneOwned(target, org);
        if !keeps {
          return Err(Conflict);
        }
      } else {
        MemberIsNotSoleOwner(before, Seat(target, org));
      }
      var n := repo.DeleteMembership(target, org);
      RemoveSeatKeeps(before, Seat(target, org));
      InvOwned(repo.db);
      OwnedSinceMore(old(repo.history), from, repo.db);
      if targetWasOwner {
        ghost var h := repo.history;
        SyncLegacyOwnerIdColumn(org);
        OwnedSinceMore(h, from, repo.db);
      }
      return Ok(());
    }
  }

  lemma NoLinks(db: Db, user: nat, links: seq<Seat>)
    requires forall s :: s in links <==> s in SeatsOf(db, user)
    ensures |links| == 0 <==> SeatsOf(db, user) == {}
  {
    hide SeatsOf;
    if |links| > 0 {
      assert links[0] in links;
    }
  }

  lemma FirstLinkIsFirstOrg(db: Db, user: nat, links: seq<Seat>)
    requires Inv(db) && links != [] && Ordered(db, links)
    requires forall s :: s in links <==> s in SeatsOf(db, user)
    ensures SeatsOf(db, user) != {} && links[0] == Seat(user, FirstOrg(db, user))
  {
    hide OwnersOf;
    assert links[0] in links;
    var first := Earliest(db, SeatsOf(db, user));
    assert first in links;
    var k :| 0 <= k < |links| && links[k] == first;
    assert db.seats[links[0]].joined == db.seats[first].joined;
  }

  lemma OwnedSinceJoin(a: seq<Db>, b: seq<Db>, from: nat)
    requires a <= b && OwnedSince(a, from) && OwnedSince(b, |a|)
    ensures OwnedSince(b, from)
  {
  }

  lemma LeastIs(s: set<nat>, m: nat)
    requires m in s && forall x :: x in s ==> m <= x
    ensures Least(s) == m
  {
  }

  lemma SyncNoChange(db: Db, org: nat)
    requires OwnersOf(db, org) != {}
    requires org !in db.orgs || db.orgs[org].ownerId == Least(OwnersOf(db, org))
    ensures Sync(db, org) == db
  {
    if org in db.orgs {
      assert db.orgs[org := db.orgs[org]] == db.orgs;
    }
  }

  lemma SameSeatsOwned(a: Db, b: Db)
    requires EveryOrgOwned(a) && a.seats == b.seats
    ensures EveryOrgOwned(b)
  {
    assert forall o :: OwnersOf(b, o) == OwnersOf(a, o);
  }

  lemma OwnedSinceNow(history: seq<Db>)
    ensures OwnedSince(history, |history|)
  {
  }

  lemma SoleLink(db: Db, org: nat, user: nat, links: seq<Seat>)
    requires |links| == |MembersOf(db, org)| && Seat(user, org) in db.seats
    ensures |links| == 1 <==> MembersOf(db, org) == {user}
  {
    assert user in MembersOf(db, org);
    if |links| == 1 {
      OnlyOne(MembersOf(db, org), user);
    }
  }

  lemma OnlyOne(s: set<nat>, x: nat)
    requires x in s && |s| == 1
    ensures s == {x}
  {
    assert |s - {x}| == 0;
  }

  lemma SoleOwner(db: Db, org: nat, user: nat)
    requires Seat(user, org) in db.seats && db.seats[Seat(user, org)].role == Owner
    ensures |OwnersOf(db, org)| > 1 <==> OwnersOf(db, org) != {user}
  {
    assert user in OwnersOf(db, org);
    if |OwnersOf(db, org)| <= 1 {
      OnlyOne(OwnersOf(db, org), user);
    }
  }

  lemma SomeOtherLink(db: Db, org: nat, user: nat, links: seq<Seat>)
    requires OtherSeats(db, org, user) != {}
    requires forall s :: s in links <==> s in db.seats && s.org == org
    ensures exists k :: 0 <= k < |links| && links[k].user != user
  {
    var s :| s in OtherSeats(db, org, user);
    assert s in links;
  }

  // The first listed member other than the leaver is the heir: creation positions are distinct.
  lemma FirstOtherIsHeir(db: Db, org: nat, user: nat, links: seq<Seat>, i: nat)
    requires Inv(db) && OtherSeats(db, org, user) != {} && i < |links| && Ordered(db, links)
    requires forall s :: s in links <==> s in db.seats && s.org == org
    requires links[i].user != user && forall k :: 0 <= k < i ==> links[k].user == user
    ensures links[i] == Seat(Heir(db, org, user), org)
  {
    hide OwnersOf;
    var h := Earliest(db, OtherSeats(db, org, user));
    assert links[i] in links && h in links;
    var k :| 0 <= k < |links| && links[k] == h;
    assert i <= k;
    assert db.seats[links[i]].joined == db.seats[h].joined;
  }
}

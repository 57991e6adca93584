// What each organization operation does and when it refuses, in terms of the table before and after
// and of nothing else.
module OrgEffects {
  import opened OrgSpec
  import opened OrgInvariants

  predicate Sits(db: Db, user: nat, org: nat) {
    Seat(user, org) in db.seats
  }

  predicate Owns(db: Db, user: nat, org: nat) {
    Sits(db, user, org) && db.seats[Seat(user, org)].role == Owner
  }

  ghost predicate OnlyOwner(db: Db, user: nat, org: nat) {
    Owns(db, user, org) && forall v: nat :: Owns(db, v, org) ==> v == user
  }

  ghost predicate OnlyMember(db: Db, user: nat, org: nat) {
    Sits(db, user, org) && forall v: nat :: Sits(db, v, org) ==> v == user
  }

  // The only organization the user owns.
  ghost predicate LastOwned(db: Db, user: nat, org: nat) {
    Owns(db, user, org) && forall o: nat :: Owns(db, user, o) ==> o == org
  }

  ghost predicate SameSeatsBut(before: Db, after: Db, s: Seat) {
    && (forall t: Seat :: t != s ==> (t in after.seats <==> t in before.seats))
    && (forall t: Seat :: t != s && t in before.seats && t in after.seats ==> after.seats[t] == before.seats[t])
  }

  // No organization comes, goes or is renamed, and only the legacy column of `org` may change.
  ghost predicate SameOrgsBut(before: Db, after: Db, org: nat) {
    && after.orgs.Keys == before.orgs.Keys
    && (forall o: nat :: o in before.orgs && o in after.orgs ==> after.orgs[o].name == before.orgs[o].name)
    && (forall o: nat :: o != org && o in before.orgs && o in after.orgs ==> after.orgs[o] == before.orgs[o])
  }

  // The column names the owner with the smallest id.
  ghost predicate NamesLeast(db: Db, org: nat) {
    org in db.orgs ==> Owns(db, db.orgs[org].ownerId, org) && forall v: nat :: Owns(db, v, org) ==> db.orgs[org].ownerId <= v
  }

  predicate Protected(db: Db, org: nat, selfHosted: bool) {
    selfHosted && org in db.orgs && db.orgs[org].name == "Root Org"
  }

  // ----- counting owners -----------------------------------------------------

  lemma AtMostOne(s: set<nat>, x: nat)
    requires x in s
    ensures |s| <= 1 <==> forall y :: y in s ==> y == x
  {
    assert |s| == |s - {x}| + 1;
    if |s| <= 1 {
      assert s - {x} == {};
    } else {
      assert s - {x} != {};
    }
  }

  lemma OwnersCounted(db: Db, user: nat, org: nat)
    requires Owns(db, user, org)
    ensures |OwnersOf(db, org)| <= 1 <==> OnlyOwner(db, user, org)
    ensures |OwnedBy(db, user)| <= 1 <==> LastOwned(db, user, org)
  {
    AtMostOne(OwnersOf(db, org), user);
    AtMostOne(OwnedBy(db, user), org);
    assert forall v: nat :: v in OwnersOf(db, org) <==> Owns(db, v, org);
    assert forall o: nat :: o in OwnedBy(db, user) <==> Owns(db, user, o);
  }

  lemma LosesExact(db: Db, user: nat, org: nat)
    ensures LosesLastOwned(db, user, org) <==> LastOwned(db, user, org)
  {
    if Owns(db, user, org) {
      OwnersCounted(db, user, org);
    }
  }

  lemma SyncNamesLeast(db: Db, org: nat)
    requires OwnersOf(db, org) != {}
    ensures NamesLeast(Sync(db, org), org) && SameOrgsBut(db, Sync(db, org), org) && Sync(db, org).seats == db.seats
  {
  }

  // ----- removing a member ---------------------------------------------------

  lemma RemoveMemberRefusals(db: Db, org: nat, acting: nat, actingIsOwner: bool, target: nat)
    ensures var r := RemoveMember(db, org, acting, actingIsOwner, target);
            && (r == Err(Forbidden) <==> !actingIsOwner)
            && (r == Err(BadRequest) <==> actingIsOwner && (target == acting || !Sits(db, target, org) || OnlyOwner(db, target, org)))
            && (r == Err(Conflict) <==> actingIsOwner && target != acting && !OnlyOwner(db, target, org) && LastOwned(db, target, org))
            && r != Err(NotFound)
  {
    LosesExact(db, target, org);
    if Owns(db, target, org) {
      OwnersCounted(db, target, org);
    }
  }

  lemma RemoveMemberEffect(db: Db, org: nat, acting: nat, actingIsOwner: bool, target: nat)
    requires RemoveMember(db, org, acting, actingIsOwner, target).Ok?
    ensures var after := RemoveMember(db, org, acting, actingIsOwner, target).value;
            && !Sits(after, target, org) && SameSeatsBut(db, after, Seat(target, org)) && SameOrgsBut(db, after, org)
            && (if Owns(db, target, org) then NamesLeast(after, org) else after.orgs == db.orgs)
  {
    var s := Seat(target, org);
    var gone := RemoveSeat(db, s);
    if Owns(db, target, org) {
      OwnersAfterRemove(db, s, org);
      OwnersCounted(db, target, org);
      var v: nat :| Owns(db, v, org) && v != target;
      assert v in OwnersOf(gone, org);
      SyncNamesLeast(gone, org);
    }
  }

  // ----- changing a role -----------------------------------------------------

  lemma SetMemberRoleRefusals(db: Db, org: nat, acting: nat, actingIsOwner: bool, target: nat, role: Role)
    ensures var r := SetMemberRole(db, org, acting, actingIsOwner, target, role);
            && (r == Err(Forbidden) <==> !actingIsOwner)
            && (r == Err(BadRequest) <==>
                  actingIsOwner && ((role == Owner && target == acting) || !Sits(db, target, org)
                                    || db.seats[Seat(target, org)].role == role || (role == Member && OnlyOwner(db, target, org))))
            && (r == Err(Conflict) <==> actingIsOwner && role == Member && !OnlyOwner(db, target, org) && LastOwned(db, target, org))
            && r != Err(NotFound)
  {
    LosesExact(db, target, org);
    if Owns(db, target, org) {
      OwnersCounted(db, target, org);
    }
  }

  lemma SetMemberRoleEffect(db: Db, org: nat, acting: nat, actingIsOwner: bool, target: nat, role: Role)
    requires SetMemberRole(db, org, acting, actingIsOwner, target, role).Ok?
    ensures var after := SetMemberRole(db, org, acting, actingIsOwner, target, role).value;
            && Sits(db, target, org) && Sits(after, target, org) && after.seats[Seat(target, org)].role == role
            && after.seats[Seat(target, org)].joined == db.seats[Seat(target, org)].joined
            && SameSeatsBut(db, after, Seat(target, org)) && SameOrgsBut(db, after, org) && NamesLeast(after, org)
  {
    var s := Seat(target, org);
    var changed := SetRole(db, s, role);
    OwnersAfterSetRole(db, s, role, org);
    if role == Member {
      OwnersCounted(db, target, org);
      var v: nat :| Owns(db, v, org) && v != target;
      assert v in OwnersOf(changed, org);
    }
    SyncNamesLeast(changed, org);
  }

  // ----- joining and creating ------------------------------------------------

  lemma AddMemberExact(db: Db, org: nat, user: nat, userExists: bool)
    ensures var r := AddMember(db, org, user, userExists);
            && (r == Err(NotFound) <==> org !in db.orgs || !userExists)
            && (r == Err(Conflict) <==> org in db.orgs && userExists && Sits(db, user, org))
            && r != Err(Forbidden) && r != Err(BadRequest)
            && (r.Ok? ==> Sits(r.value, user, org) && !Owns(r.value, user, org)
                          && SameSeatsBut(db, r.value, Seat(user, org)) && r.value.orgs == db.orgs)
            && (r.Ok? && WellPlaced(db) ==>
                  forall s :: s in db.seats ==> db.seats[s].joined < r.value.seats[Seat(user, org)].joined)
  {
  }

  lemma CreateExact(db: Db, user: nat, name: string)
    requires WellPlaced(db)
    ensures var after := Create(db, user, name);
            exists org: nat ::
              && org !in db.orgs && after.orgs.Keys == db.orgs.Keys + {org}
              && after.orgs[org].name == name && after.orgs[org].ownerId == user
              && (forall o: nat :: o in db.orgs ==> after.orgs[o] == db.orgs[o])
              && Owns(after, user, org) && OnlyMember(after, user, org) && SameSeatsBut(db, after, Seat(user, org))
              && forall s :: s in db.seats ==> db.seats[s].joined < after.seats[Seat(user, org)].joined
  {
    var org := db.nextOrg;
    var after := Create(db, user, name);
    assert org !in db.orgs;
    assert forall v: nat :: Sits(after, v, org) ==> v == user;
    assert after.orgs.Keys == db.orgs.Keys + {org};
  }

  // ----- leaving -------------------------------------------------------------

  lemma LeaveRefusals(db: Db, user: nat, org: nat, accountDeletion: bool, selfHosted: bool)
    ensures var r := Leave(db, user, org, accountDeletion, selfHosted);
            && (r == Err(NotFound) <==> !Sits(db, user, org))
            && (r == Err(Conflict) <==> !accountDeletion && LastOwned(db, user, org))
            && (r == Err(Forbidden) <==>
                  OnlyMember(db, user, org) && Owns(db, user, org) && Protected(db, org, selfHosted)
                  && (accountDeletion || !LastOwned(db, user, org)))
            && r != Err(BadRequest)
  {
    LosesExact(db, user, org);
    MembersExact(db, user, org);
  }

  lemma MembersExact(db: Db, user: nat, org: nat)
    ensures MembersOf(db, org) == {user} <==> OnlyMember(db, user, org)
    ensures OwnersOf(db, org) == {user} <==> OnlyOwner(db, user, org)
  {
    assert forall v: nat :: v in MembersOf(db, org) <==> Sits(db, v, org);
    assert forall v: nat :: v in OwnersOf(db, org) <==> Owns(db, v, org);
  }

  lemma LeaveOrganizationRefusals(db: Db, user: nat, org: nat, selfHosted: bool)
    ensures var r := LeaveOrganization(db, user, org, selfHosted);
            && (r == Err(Forbidden) <==> Protected(db, org, selfHosted))
            && (r == Err(NotFound) <==> !Protected(db, org, selfHosted) && !Sits(db, user, org))
            && (r == Err(Conflict) <==> !Protected(db, org, selfHosted) && LastOwned(db, user, org))
            && r != Err(BadRequest)
            && (r.Ok? ==> r == Leave(db, user, org, false, selfHosted))
  {
    hide Leave;
    LeaveRefusals(db, user, org, false, selfHosted);
  }

  // Which of the four outcomes a leave reports.
  lemma LeaveOutcome(db: Db, user: nat, org: nat, accountDeletion: bool, selfHosted: bool)
    requires Leave(db, user, org, accountDeletion, selfHosted).Ok?
    ensures var outcome := Leave(db, user, org, accountDeletion, selfHosted).value.1;
            && (outcome == MemberLeft <==> !Owns(db, user, org))
            && (outcome == OrgDissolved <==> Owns(db, user, org) && OnlyMember(db, user, org))
            && (outcome == OwnerLeftMulti <==> Owns(db, user, org) && !OnlyOwner(db, user, org))
            && (outcome == OwnerPromotedSuccessor <==> OnlyOwner(db, user, org) && !OnlyMember(db, user, org))
  {
    MembersExact(db, user, org);
  }

  // `heir` is the other member that joined first.
  ghost predicate JoinedFirst(db: Db, user: nat, org: nat, heir: nat) {
    && heir != user && Sits(db, heir, org)
    && forall v: nat :: v != user && Sits(db, v, org) ==> db.seats[Seat(heir, org)].joined <= db.seats[Seat(v, org)].joined
  }

  // The only member takes the organization along; an only owner hands it to the member that joined
  // first, whose seat is the only other one that changes; anyone else just goes.
  lemma LeaveEffect(db: Db, user: nat, org: nat, accountDeletion: bool, selfHosted: bool)
    requires Leave(db, user, org, accountDeletion, selfHosted).Ok?
    ensures var after := Leave(db, user, org, accountDeletion, selfHosted).value.0;
            && !Sits(after, user, org)
            && (if Owns(db, user, org) && OnlyMember(db, user, org) then
                  && SameSeatsBut(db, after, Seat(user, org))
                  && after.orgs.Keys == db.orgs.Keys - {org} && forall o: nat :: o in after.orgs ==> after.orgs[o] == db.orgs[o]
                else if OnlyOwner(db, user, org) then
                  exists heir: nat :: JoinedFirst(db, user, org, heir) && Handed(db, after, user, org, heir)
                else
                  && SameSeatsBut(db, after, Seat(user, org)) && SameOrgsBut(db, after, org)
                  && (if Owns(db, user, org) then NamesLeast(after, org) else after.orgs == db.orgs))
  {
    hide Heir, Sync, OwnersOf, MembersOf;
    MembersExact(db, user, org);
    var s := Seat(user, org);
    if OnlyMember(db, user, org) {
      assert forall t :: t in db.seats && t.org == org ==> Sits(db, t.user, org);
    } else if OnlyOwner(db, user, org) {
      HasOthers(db, user, org);
      HeirJoinedFirst(db, user, org);
      HandedOver(db, user, org, Heir(db, org, user));
    } else if Owns(db, user, org) {
      OwnersAfterRemove(db, s, org);
      var v: nat :| Owns(db, v, org) && v != user;
      assert v in OwnersOf(db, org);
      assert v in OwnersOf(RemoveSeat(db, s), org);
      SyncNamesLeast(RemoveSeat(db, s), org);
    }
  }

  ghost predicate Handed(db: Db, after: Db, user: nat, org: nat, heir: nat) {
    && after.seats.Keys == db.seats.Keys - {Seat(user, org)}
    && (forall t: Seat :: t in after.seats && t in db.seats ==>
          after.seats[t] == if t == Seat(heir, org) then db.seats[t].(role := Owner) else db.seats[t])
    && SameOrgsBut(db, after, org)
  }

  lemma HeirJoinedFirst(db: Db, user: nat, org: nat)
    requires OtherSeats(db, org, user) != {}
    ensures JoinedFirst(db, user, org, Heir(db, org, user))
  {
    var e := Earliest(db, OtherSeats(db, org, user));
    assert e == Seat(Heir(db, org, user), org);
    forall v: nat | v != user && Sits(db, v, org) ensures db.seats[e].joined <= db.seats[Seat(v, org)].joined {
      assert Seat(v, org) in OtherSeats(db, org, user);
    }
  }

  lemma HandedOver(db: Db, user: nat, org: nat, heir: nat)
    requires heir != user && Sits(db, heir, org)
    ensures Handed(db, RemoveSeat(Sync(SetRole(db, Seat(heir, org), Owner), org), Seat(user, org)), user, org, heir)
  {
    var promoted := SetRole(db, Seat(heir, org), Owner);
    OwnersAfterSetRole(db, Seat(heir, org), Owner, org);
    assert heir in OwnersOf(promoted, org);
    SyncNamesLeast(promoted, org);
  }

  // ----- the start-up pass ---------------------------------------------------

  lemma BackfillExact(db: Db)
    ensures var after := Backfill(db);
            && after.orgs == db.orgs && after.seats.Keys == db.seats.Keys
            && forall user: nat, org: nat :: Sits(db, user, org) ==>
                 && after.seats[Seat(user, org)].joined == db.seats[Seat(user, org)].joined
                 && (Owns(after, user, org) <==> Owns(db, user, org) || (org in db.orgs && db.orgs[org].ownerId == user))
  {
  }
}

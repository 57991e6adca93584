// Deleting an account leaves one organization after the other; the result does not depend on the
// order and is described here in one step. Also: when the `ownerId` column is right.
module OrgAccountDeletion {
  import opened OrgSpec
  import opened OrgInvariants

  // ----- the result in one step ----------------------------------------------

  predicate OwnsHere(db: Db, user: nat, org: nat) {
    Seat(user, org) in db.seats && db.seats[Seat(user, org)].role == Owner
  }

  // The user is the only member.
  predicate Dissolves(db: Db, user: nat, org: nat) {
    OwnsHere(db, user, org) && MembersOf(db, org) == {user}
  }

  // The user is the last owner among several members.
  predicate Hands(db: Db, user: nat, org: nat) {
    OwnsHere(db, user, org) && OwnersOf(db, org) == {user} && OtherSeats(db, org, user) != {}
  }

  ghost function SeatAfter(db: Db, user: nat, s: Seat): Row
    requires s in db.seats
  {
    if Hands(db, user, s.org) && s.user == Heir(db, s.org, user) then db.seats[s].(role := Owner) else db.seats[s]
  }

  ghost function OrgAfter(db: Db, user: nat, o: nat): Org
    requires o in db.orgs
  {
    if Hands(db, user, o) then db.orgs[o].(ownerId := Least({user, Heir(db, o, user)}))
    else if OwnsHere(db, user, o) && OwnersOf(db, o) - {user} != {} then db.orgs[o].(ownerId := Least(OwnersOf(db, o) - {user}))
    else db.orgs[o]
  }

  // No seat of the user is left; organizations they were alone in are gone; where they were the last
  // owner, the first other member to have joined owns; nothing else changes.
  ghost function After(db: Db, user: nat): Db {
    Db(map s | s in db.seats && s.user != user :: SeatAfter(db, user, s),
       map o | o in db.orgs && !Dissolves(db, user, o) :: OrgAfter(db, user, o),
       db.clock, db.nextOrg)
  }

  lemma HeirSame(a: Db, b: Db, org: nat, user: nat)
    requires Inv(a) && OtherSeats(a, org, user) != {} && OtherSeats(a, org, user) == OtherSeats(b, org, user)
    requires forall s :: s in OtherSeats(a, org, user) ==> a.seats[s].joined == b.seats[s].joined
    ensures Heir(a, org, user) == Heir(b, org, user)
  {
    var x, y := Earliest(a, OtherSeats(a, org, user)), Earliest(b, OtherSeats(b, org, user));
    assert a.seats[x].joined <= a.seats[y].joined && b.seats[y].joined <= b.seats[x].joined;
  }

  // Leaving one organization touches no other.
  lemma LeaveElsewhere(db: Db, user: nat, org: nat, selfHosted: bool)
    requires Leave(db, user, org, true, selfHosted).Ok?
    ensures var d := Leave(db, user, org, true, selfHosted).value.0;
            && (forall s: Seat :: s.org != org ==> (s in d.seats <==> s in db.seats))
            && (forall s: Seat :: s.org != org && s in db.seats ==> d.seats[s] == db.seats[s])
            && (forall o :: o != org ==> (o in d.orgs <==> o in db.orgs))
            && (forall o :: o != org && o in db.orgs ==> d.orgs[o] == db.orgs[o])
            && d.clock == db.clock && d.nextOrg == db.nextOrg
  {
    hide OwnersOf, MembersOf, Least, Heir;
  }

  // What leaving does to the organization itself.
  ghost predicate LeftHere(db: Db, d: Db, user: nat, org: nat) {
    && (forall s: Seat :: s.org == org ==> (s in d.seats <==> s in db.seats && s.user != user))
    && (forall s: Seat :: s.org == org && s in d.seats ==> d.seats[s] == SeatAfter(db, user, s))
    && org in db.orgs
    && (org in d.orgs <==> !Dissolves(db, user, org))
    && (org in d.orgs ==> d.orgs[org] == OrgAfter(db, user, org))
  }

  lemma PlainMemberLeft(db: Db, user: nat, org: nat)
    requires Inv(db) && Seat(user, org) in db.seats && db.seats[Seat(user, org)].role != Owner
    ensures LeftHere(db, RemoveSeat(db, Seat(user, org)), user, org)
  {
    hide Least, Heir, OtherSeats, OwnersOf, MembersOf;
  }

  lemma SoleMemberLeft(db: Db, user: nat, org: nat)
    requires Inv(db) && Dissolves(db, user, org)
    ensures LeftHere(db, DropOrg(db, org), user, org)
  {
    hide Least, Heir, OtherSeats, OwnersOf;
    forall s: Seat | s.org == org && s in db.seats ensures s.user == user {
      assert s.user in MembersOf(db, org);
    }
  }

  lemma SeveralOwners(db: Db, user: nat, org: nat)
    requires Inv(db) && OwnsHere(db, user, org) && OwnersOf(db, org) != {user}
    ensures !Hands(db, user, org) && !Dissolves(db, user, org) && org in db.orgs
    ensures OwnersOf(RemoveSeat(db, Seat(user, org)), org) == OwnersOf(db, org) - {user} != {}
  {
    OwnersAfterRemove(db, Seat(user, org), org);
    var other :| other in OwnersOf(db, org) && other != user;
    assert other in MembersOf(db, org);
  }

  lemma OneOwnerOfSeveralLeft(db: Db, user: nat, org: nat)
    requires Inv(db) && OwnsHere(db, user, org) && OwnersOf(db, org) != {user}
    ensures LeftHere(db, Sync(RemoveSeat(db, Seat(user, org)), org), user, org)
  {
    SeveralOwners(db, user, org);
    hide Least, Hands, Dissolves, OwnersOf, Inv, SeatAfter, OrgAfter;
    SeatsStay(db, user, org);
    OrgSynced(db, user, org);
  }

  lemma SeatsStay(db: Db, user: nat, org: nat)
    requires !Hands(db, user, org)
    ensures forall s: Seat :: s.org == org && s in db.seats ==> SeatAfter(db, user, s) == db.seats[s]
  {
    hide Hands, Heir;
  }

  lemma OrgSynced(db: Db, user: nat, org: nat)
    requires !Hands(db, user, org) && OwnsHere(db, user, org) && org in db.orgs && OwnersOf(db, org) - {user} != {}
    ensures OrgAfter(db, user, org) == db.orgs[org].(ownerId := Least(OwnersOf(db, org) - {user}))
  {
    hide Hands, Least, OwnersOf;
  }

  lemma LastOwner(db: Db, user: nat, org: nat)
    requires Inv(db) && Hands(db, user, org)
    ensures !Dissolves(db, user, org) && org in db.orgs
    ensures OwnersOf(SetRole(db, Seat(Heir(db, org, user), org), Owner), org) == {user, Heir(db, org, user)}
  {
    hide Heir;
    HandsDoesNotDissolve(db, user, org);
    OwnersAfterSetRole(db, Seat(Heir(db, org, user), org), Owner, org);
  }

  lemma LastOwnerLeft(db: Db, user: nat, org: nat)
    requires Inv(db) && Hands(db, user, org)
    ensures var heir := Seat(Heir(db, org, user), org);
            LeftHere(db, RemoveSeat(Sync(SetRole(db, heir, Owner), org), Seat(user, org)), user, org)
  {
    LastOwner(db, user, org);
    hide Least, Heir, Inv, Dissolves, OwnersOf, OtherSeats;
  }

  lemma LeaveHere(db: Db, user: nat, org: nat, selfHosted: bool)
    requires Inv(db) && Leave(db, user, org, true, selfHosted).Ok?
    ensures LeftHere(db, Leave(db, user, org, true, selfHosted).value.0, user, org)
  {
    hide Least, Heir, OwnersOf, MembersOf, LeftHere, Inv, RemoveSeat, Sync, DropOrg, SetRole;
    match Leave(db, user, org, true, selfHosted).value.1
    case MemberLeft => PlainMemberLeft(db, user, org);
    case OrgDissolved => SoleMemberLeft(db, user, org);
    case OwnerLeftMulti => OneOwnerOfSeveralLeft(db, user, org);
    case OwnerPromotedSuccessor =>
      HasOthers(db, user, org);
      LastOwnerLeft(db, user, org);
  }

  lemma AfterElsewhere(db: Db, d: Db, user: nat, o: nat)
    requires Inv(db) && Inv(d)
    requires forall s: Seat :: s.org == o ==> (s in d.seats <==> s in db.seats) && (s in db.seats ==> d.seats[s] == db.seats[s])
    ensures OwnsHere(d, user, o) == OwnsHere(db, user, o) && OwnersOf(d, o) == OwnersOf(db, o) && MembersOf(d, o) == MembersOf(db, o)
    ensures OtherSeats(d, o, user) == OtherSeats(db, o, user)
    ensures OtherSeats(db, o, user) != {} ==> Heir(d, o, user) == Heir(db, o, user)
  {
    hide Inv, Heir;
    if OtherSeats(db, o, user) != {} {
      HeirSame(db, d, o, user);
    }
  }

  // Leaving first and deleting then is the same as deleting.
  lemma AfterLeave(db: Db, user: nat, org: nat, selfHosted: bool)
    requires Inv(db) && Leave(db, user, org, true, selfHosted).Ok?
    ensures After(Leave(db, user, org, true, selfHosted).value.0, user) == After(db, user)
  {
    hide Leave, Inv, OwnersOf, MembersOf, OtherSeats, Heir;
    var d := Leave(db, user, org, true, selfHosted).value.0;
    LeaveKeeps(db, user, org, true, selfHosted);
    LeaveElsewhere(db, user, org, selfHosted);
    LeaveHere(db, user, org, selfHosted);
    forall o | o != org
      ensures OwnsHere(d, user, o) == OwnsHere(db, user, o) && OwnersOf(d, o) == OwnersOf(db, o) && MembersOf(d, o) == MembersOf(db, o)
      ensures OtherSeats(d, o, user) == OtherSeats(db, o, user)
      ensures OtherSeats(db, o, user) != {} ==> Heir(d, o, user) == Heir(db, o, user)
    {
      AfterElsewhere(db, d, user, o);
    }
    assert !OwnsHere(d, user, org);
    var a, b := After(d, user), After(db, user);
    forall s ensures s in a.seats <==> s in b.seats {
    }
    forall s | s in b.seats ensures a.seats[s] == b.seats[s] {
    }
    assert a.seats == b.seats;
    forall o ensures o in a.orgs <==> o in b.orgs {
    }
    forall o | o in b.orgs ensures a.orgs[o] == b.orgs[o] {
    }
    assert a.orgs == b.orgs;
  }

  lemma AfterNothing(db: Db, user: nat)
    requires SeatsOf(db, user) == {}
    ensures After(db, user) == db
  {
    hide OwnersOf, MembersOf, OtherSeats, Heir;
    forall o ensures !OwnsHere(db, user, o) {
      assert Seat(user, o) !in SeatsOf(db, user);
    }
    assert forall s :: s in db.seats ==> s.user != user by {
      forall s | s in db.seats ensures s.user != user {
        assert s !in SeatsOf(db, user);
      }
    }
    assert After(db, user).seats == db.seats;
    assert After(db, user).orgs == db.orgs;
  }

  // When the deletion goes through, it has done exactly that.
  lemma {:induction false} PurgeIsAfter(db: Db, user: nat, selfHosted: bool)
    requires Inv(db) && Purge(db, user, selfHosted).done
    ensures Purge(db, user, selfHosted).db == After(db, user)
    decreases |SeatsOf(db, user)|
  {
    hide Inv, Leave, SeatsOf, After;
    if SeatsOf(db, user) == {} {
      AfterNothing(db, user);
    } else {
      var org := FirstOrg(db, user);
      var d := Leave(db, user, org, true, selfHosted).value.0;
      LeaveKeeps(db, user, org, true, selfHosted);
      LeaveDropsSeat(db, user, org, true, selfHosted);
      SeatsShrink(SeatsOf(db, user), Seat(user, org));
      AfterLeave(db, user, org, selfHosted);
      PurgeIsAfter(d, user, selfHosted);
    }
  }

  // The organization whose dissolution is refused.
  ghost predicate Blocked(db: Db, user: nat, selfHosted: bool) {
    exists o :: Dissolves(db, user, o) && IsProtected(db, o, selfHosted)
  }

  lemma LeaveBlocked(db: Db, user: nat, org: nat, selfHosted: bool)
    requires Inv(db) && Seat(user, org) in db.seats
    ensures var r := Leave(db, user, org, true, selfHosted);
            && (r.Err? <==> Dissolves(db, user, org) && IsProtected(db, org, selfHosted))
            && (r.Ok? ==> (Blocked(r.value.0, user, selfHosted) <==> Blocked(db, user, selfHosted)))
  {
    var r := Leave(db, user, org, true, selfHosted);
    if r.Ok? {
      hide Leave, Inv, OwnersOf;
      var d := r.value.0;
      LeaveKeeps(db, user, org, true, selfHosted);
      LeaveElsewhere(db, user, org, selfHosted);
      LeaveHere(db, user, org, selfHosted);
      forall o | o != org
        ensures Dissolves(d, user, o) == Dissolves(db, user, o) && IsProtected(d, o, selfHosted) == IsProtected(db, o, selfHosted)
      {
        AfterElsewhere(db, d, user, o);
      }
      assert !Dissolves(d, user, org);
    }
  }

  // The loop stops early exactly when the user is alone in the protected organization.
  lemma {:induction false} PurgeDone(db: Db, user: nat, selfHosted: bool)
    requires Inv(db)
    ensures Purge(db, user, selfHosted).done <==> !Blocked(db, user, selfHosted)
    decreases |SeatsOf(db, user)|
  {
    hide Inv, Leave, SeatsOf, IsProtected, MembersOf;
    if SeatsOf(db, user) == {} {
      forall o ensures !Dissolves(db, user, o) {
        assert Seat(user, o) !in SeatsOf(db, user);
      }
    } else {
      var org := FirstOrg(db, user);
      var r := Leave(db, user, org, true, selfHosted);
      LeaveBlocked(db, user, org, selfHosted);
      if r.Ok? {
        LeaveKeeps(db, user, org, true, selfHosted);
        LeaveDropsSeat(db, user, org, true, selfHosted);
        SeatsShrink(SeatsOf(db, user), Seat(user, org));
        PurgeDone(r.value.0, user, selfHosted);
      }
    }
  }

  // ----- the ownerId column --------------------------------------------------

  ghost predicate Synced(db: Db, o: nat) {
    o in db.orgs && OwnersOf(db, o) != {} ==> db.orgs[o].ownerId == Least(OwnersOf(db, o))
  }

  // A successful leave promotes a successor exactly when the leaver is the last owner among several.
  lemma PromotionExact(db: Db, user: nat, org: nat, accountDeletion: bool, selfHosted: bool)
    requires Leave(db, user, org, accountDeletion, selfHosted).Ok?
    ensures Leave(db, user, org, accountDeletion, selfHosted).value.1 == OwnerPromotedSuccessor <==> Hands(db, user, org)
  {
    hide RemoveSeat, SetRole, DropOrg, Sync, Heir;
    if MembersOf(db, org) == {user} {
      assert forall s :: s in OtherSeats(db, org, user) ==> s.user in MembersOf(db, org);
    } else {
      HasOthers(db, user, org);
    }
  }

  lemma LeaveSyncByOutcome(db: Db, user: nat, org: nat, accountDeletion: bool, selfHosted: bool, o: nat)
    requires Inv(db) && Synced(db, o) && Leave(db, user, org, accountDeletion, selfHosted).Ok?
    ensures var r := Leave(db, user, org, accountDeletion, selfHosted).value;
            Synced(r.0, o) <==>
              !(r.1 == OwnerPromotedSuccessor && o == org && OtherSeats(db, org, user) != {} && user < Heir(db, org, user))
  {
    hide Inv, OwnersOf, MembersOf, RemoveSeat, SetRole, DropOrg, OtherSeats, Heir;
    var seat := Seat(user, org);
    var r := Leave(db, user, org, accountDeletion, selfHosted).value;
    match r.1
    case MemberLeft =>
      OwnersAfterRemove(db, seat, o);
      RemoveKeepsOrgs(db, seat);
      MemberOwnsNothingHere(db, seat);
    case OrgDissolved =>
      OwnersAfterDrop(db, org, o);
      DropKeepsOtherOrgs(db, org);
    case OwnerLeftMulti =>
      OwnersAfterRemove(db, seat, o);
      RemoveKeepsOrgs(db, seat);
      SyncOwners(RemoveSeat(db, seat), org);
    case OwnerPromotedSuccessor =>
      HasOthers(db, user, org);
      var heir := Seat(Heir(db, org, user), org);
      OwnersAfterSetRole(db, heir, Owner, o);
      SetRoleKeepsOrgs(db, heir, Owner);
      var promoted := Sync(SetRole(db, heir, Owner), org);
      SyncOwners(SetRole(db, heir, Owner), org);
      OwnersAfterRemove(promoted, seat, o);
      RemoveKeepsOrgs(promoted, seat);
      if o == org {
        SeatHasOrg(db, seat);
        assert OwnersOf(promoted, org) == {user, heir.user} && OwnersOf(r.0, org) == {heir.user};
      }
  }

  // After any successful leave the column names the least owner, with one exception: the leaver was
  // the last owner among several members and the first other member to have joined, who is promoted,
  // has a larger id. The column then still names the leaver.
  lemma LeaveSync(db: Db, user: nat, org: nat, accountDeletion: bool, selfHosted: bool, o: nat)
    requires Inv(db) && Synced(db, o) && Leave(db, user, org, accountDeletion, selfHosted).Ok?
    ensures Synced(Leave(db, user, org, accountDeletion, selfHosted).value.0, o) <==>
              !(o == org && Hands(db, user, org) && user < Heir(db, org, user))
  {
    hide Inv, OwnersOf, Leave, Heir, Synced;
    PromotionExact(db, user, org, accountDeletion, selfHosted);
    LeaveSyncByOutcome(db, user, org, accountDeletion, selfHosted, o);
  }

  lemma SeatHasOrg(db: Db, s: Seat)
    requires Inv(db) && s in db.seats
    ensures s.org in db.orgs
  {
  }

  lemma RemoveKeepsOrgs(db: Db, s: Seat)
    ensures RemoveSeat(db, s).orgs == db.orgs
  {
  }

  lemma SetRoleKeepsOrgs(db: Db, s: Seat, role: Role)
    ensures SetRole(db, s, role).orgs == db.orgs
  {
  }

  lemma DropKeepsOtherOrgs(db: Db, org: nat)
    ensures forall o :: o in DropOrg(db, org).orgs <==> o in db.orgs && o != org
    ensures forall o :: o in DropOrg(db, org).orgs ==> DropOrg(db, org).orgs[o] == db.orgs[o]
  {
  }

  lemma MemberOwnsNothingHere(db: Db, s: Seat)
    requires s in db.seats && db.seats[s].role != Owner
    ensures OwnersOf(db, s.org) - {s.user} == OwnersOf(db, s.org)
  {
  }

  // Role changes and owner removals put the column right, whatever it was.
  lemma RoleChangeSyncs(db: Db, org: nat, acting: nat, actingIsOwner: bool, target: nat, role: Role)
    requires SetMemberRole(db, org, acting, actingIsOwner, target, role).Ok?
    ensures Synced(SetMemberRole(db, org, acting, actingIsOwner, target, role).value, org)
    ensures forall o :: o != org && Synced(db, o) ==> Synced(SetMemberRole(db, org, acting, actingIsOwner, target, role).value, o)
  {
    hide OwnersOf, SetRole, LosesLastOwned;
    var seat := Seat(target, org);
    SetRoleKeepsOrgs(db, seat, role);
    SyncOwners(SetRole(db, seat, role), org);
    forall o | o != org ensures OwnersOf(SetRole(db, seat, role), o) == OwnersOf(db, o) {
      OwnersAfterSetRole(db, seat, role, o);
    }
  }

  lemma RemovalSyncs(db: Db, org: nat, acting: nat, actingIsOwner: bool, target: nat)
    requires RemoveMember(db, org, acting, actingIsOwner, target).Ok?
    ensures var out := RemoveMember(db, org, acting, actingIsOwner, target).value;
            && (OwnsHere(db, target, org) || Synced(db, org) ==> Synced(out, org))
            && forall o :: o != org && Synced(db, o) ==> Synced(out, o)
  {
    hide OwnersOf, RemoveSeat, LosesLastOwned;
    var seat := Seat(target, org);
    RemoveKeepsOrgs(db, seat);
    SyncOwners(RemoveSeat(db, seat), org);
    forall o ensures OwnersOf(RemoveSeat(db, seat), o) == if o == org then OwnersOf(db, o) - {target} else OwnersOf(db, o) {
      OwnersAfterRemove(db, seat, o);
    }
    if db.seats[seat].role != Owner { MemberOwnsNothingHere(db, seat); }
  }

  // The start-up pass has nothing to do exactly when the column names no plain member.
  lemma BackfillIdle(db: Db)
    ensures Backfill(db) == db <==>
              forall s :: s in db.seats && s.org in db.orgs && db.orgs[s.org].ownerId == s.user ==> db.seats[s].role == Owner
  {
    if Backfill(db) == db {
      forall s | s in db.seats && s.org in db.orgs && db.orgs[s.org].ownerId == s.user ensures db.seats[s].role == Owner {
        assert Backfill(db).seats[s].role == Owner;
      }
    } else if forall s :: s in db.seats && s.org in db.orgs && db.orgs[s.org].ownerId == s.user ==> db.seats[s].role == Owner {
      assert false;
    }
  }

  lemma LeaveEitherWay(db: Db, user: nat, org: nat, accountDeletion: bool, selfHosted: bool)
    requires Leave(db, user, org, accountDeletion, selfHosted).Ok?
    ensures Leave(db, user, org, true, selfHosted) == Leave(db, user, org, accountDeletion, selfHosted)
  {
    hide OwnersOf, MembersOf, OtherSeats, Heir, Sync;
  }

  // A last owner who leaves, comes back as a member and lives through a restart is an owner again.
  lemma StaleOwnerReturns(db: Db, user: nat, org: nat, accountDeletion: bool, selfHosted: bool)
    requires Inv(db) && Hands(db, user, org) && user < Heir(db, org, user) && Leave(db, user, org, accountDeletion, selfHosted).Ok?
    ensures var left := Leave(db, user, org, accountDeletion, selfHosted).value.0;
            && AddMember(left, org, user, true).Ok?
            && var back := AddMember(left, org, user, true).value;
               !OwnsHere(back, user, org) && OwnsHere(Backfill(back), user, org)
  {
    hide OwnersOf, MembersOf, OtherSeats, Heir, Leave, Inv;
    LeaveEitherWay(db, user, org, accountDeletion, selfHosted);
    LeaveHere(db, user, org, selfHosted);
    HandsDoesNotDissolve(db, user, org);
    LeaveKeeps(db, user, org, true, selfHosted);
  }

  const EMPTY := Db(map[], map[], 0, 0)

  // User 1 founds two organizations, user 2 joins the first, user 1 leaves it: user 2 is its owner
  // and the column names user 1. Added back as a member, user 1 owns it after the next start.
  lemma StaleOwnerExample()
    ensures var leaving := [DoCreate(1, "a"), DoAdd(0, 2, true), DoCreate(1, "b"), DoLeave(1, 0)];
            var left, back := Run(EMPTY, leaving, false), Run(EMPTY, leaving + [DoAdd(0, 1, true), DoBackfill], false);
            && OwnersOf(left, 0) == {2} && 0 in left.orgs && left.orgs[0].ownerId == 1 && !Synced(left, 0)
            && Seat(1, 0) !in left.seats && OwnersOf(back, 0) == {1, 2}
  {
    var a, b := Org("a", 1), Org("b", 1);
    var d3 := Db(map[Seat(1, 0) := Row(Owner, 0), Seat(2, 0) := Row(Member, 1), Seat(1, 1) := Row(Owner, 2)], map[0 := a, 1 := b], 3, 2);
    var d4 := Db(map[Seat(2, 0) := Row(Owner, 1), Seat(1, 1) := Row(Owner, 2)], map[0 := a, 1 := b], 3, 2);
    var d6 := Db(map[Seat(2, 0) := Row(Owner, 1), Seat(1, 1) := Row(Owner, 2), Seat(1, 0) := Row(Owner, 3)], map[0 := a, 1 := b], 4, 2);
    FirstThree(d3);
    LeaveExample(d3, d4);
    BackExample(d4, d6);
    OwnersExample(d4, d6);
    hide Step;
    var first, leave, last := [DoCreate(1, "a"), DoAdd(0, 2, true), DoCreate(1, "b")], [DoLeave(1, 0)], [DoAdd(0, 1, true), DoBackfill];
    RunAppend(EMPTY, first, leave, false);
    RunAppend(EMPTY, first + leave, last, false);
    assert first + leave == [DoCreate(1, "a"), DoAdd(0, 2, true), DoCreate(1, "b"), DoLeave(1, 0)];
  }

  lemma {:induction false} RunAppend(db: Db, a: seq<Op>, b: seq<Op>, selfHosted: bool)
    ensures Run(db, a + b, selfHosted) == Run(Run(db, a, selfHosted), b, selfHosted)
    decreases |a|
  {
    hide Step;
    if a == [] {
      assert a + b == b;
    } else {
      assert (a + b)[0] == a[0] && (a + b)[1..] == a[1..] + b;
      RunAppend(Step(db, a[0], selfHosted), a[1..], b, selfHosted);
    }
  }

  lemma FirstThree(d3: Db)
    requires d3 == Db(map[Seat(1, 0) := Row(Owner, 0), Seat(2, 0) := Row(Member, 1), Seat(1, 1) := Row(Owner, 2)],
                      map[0 := Org("a", 1), 1 := Org("b", 1)], 3, 2)
    ensures Run(EMPTY, [DoCreate(1, "a"), DoAdd(0, 2, true), DoCreate(1, "b")], false) == d3
  {
    var ops := [DoCreate(1, "a"), DoAdd(0, 2, true), DoCreate(1, "b")];
    var d1 := Create(EMPTY, 1, "a");
    var d2 := AddMember(d1, 0, 2, true).value;
    assert Create(d2, 1, "b") == d3;
    assert ops[1..] == [DoAdd(0, 2, true), DoCreate(1, "b")] && ops[1..][1..] == [DoCreate(1, "b")];
    assert Run(d2, [DoCreate(1, "b")], false) == d3;
    assert Run(d1, ops[1..], false) == d3;
  }

  lemma LeaveExample(d3: Db, d4: Db)
    requires d3 == Db(map[Seat(1, 0) := Row(Owner, 0), Seat(2, 0) := Row(Member, 1), Seat(1, 1) := Row(Owner, 2)],
                      map[0 := Org("a", 1), 1 := Org("b", 1)], 3, 2)
    requires d4 == Db(map[Seat(2, 0) := Row(Owner, 1), Seat(1, 1) := Row(Owner, 2)], map[0 := Org("a", 1), 1 := Org("b", 1)], 3, 2)
    ensures Run(d3, [DoLeave(1, 0)], false) == d4
  {
    var promoted := Db(map[Seat(1, 0) := Row(Owner, 0), Seat(2, 0) := Row(Owner, 1), Seat(1, 1) := Row(Owner, 2)], d3.orgs, 3, 2);
    LeaveSets(d3, promoted);
    assert SetRole(d3, Seat(2, 0), Owner) == promoted;
    assert RemoveSeat(promoted, Seat(1, 0)) == d4;
    hide OwnedBy, MembersOf, OwnersOf, OtherSeats, RemoveSeat, SetRole, Heir;
    HasOthers(d3, 1, 0);
    assert Sync(promoted, 0) == promoted by { assert promoted.orgs[0 := Org("a", 1)] == promoted.orgs; }
    assert LeaveOrganization(d3, 1, 0, false) == Ok((d4, OwnerPromotedSuccessor));
    assert [DoLeave(1, 0)][1..] == [];
  }

  lemma LeaveSets(d3: Db, promoted: Db)
    requires d3 == Db(map[Seat(1, 0) := Row(Owner, 0), Seat(2, 0) := Row(Member, 1), Seat(1, 1) := Row(Owner, 2)],
                      map[0 := Org("a", 1), 1 := Org("b", 1)], 3, 2)
    requires promoted == Db(map[Seat(1, 0) := Row(Owner, 0), Seat(2, 0) := Row(Owner, 1), Seat(1, 1) := Row(Owner, 2)], d3.orgs, 3, 2)
    ensures OwnersOf(d3, 0) == {1} && OtherSeats(d3, 0, 1) == {Seat(2, 0)} && Heir(d3, 0, 1) == 2
    ensures !LosesLastOwned(d3, 1, 0) && MembersOf(d3, 0) != {1}
    ensures OwnersOf(promoted, 0) == {1, 2} && Least({1, 2}) == 1
  {
    assert OwnersOf(d3, 0) == {1} && OtherSeats(d3, 0, 1) == {Seat(2, 0)} && OwnersOf(promoted, 0) == {1, 2};
    assert OwnedBy(d3, 1) == {0, 1};
    assert 2 in MembersOf(d3, 0);
    assert Least({1, 2}) == 1;
  }

  lemma BackExample(d4: Db, d6: Db)
    requires d4 == Db(map[Seat(2, 0) := Row(Owner, 1), Seat(1, 1) := Row(Owner, 2)], map[0 := Org("a", 1), 1 := Org("b", 1)], 3, 2)
    requires d6 == Db(map[Seat(2, 0) := Row(Owner, 1), Seat(1, 1) := Row(Owner, 2), Seat(1, 0) := Row(Owner, 3)],
                      map[0 := Org("a", 1), 1 := Org("b", 1)], 4, 2)
    ensures Run(d4, [DoAdd(0, 1, true), DoBackfill], false) == d6
  {
    var d5 := AddMember(d4, 0, 1, true).value;
    assert Backfill(d5).seats == d6.seats;
    assert [DoAdd(0, 1, true), DoBackfill][1..] == [DoBackfill];
    assert Run(d5, [DoBackfill], false) == d6;
  }

  lemma OwnersExample(d4: Db, d6: Db)
    requires d4 == Db(map[Seat(2, 0) := Row(Owner, 1), Seat(1, 1) := Row(Owner, 2)], map[0 := Org("a", 1), 1 := Org("b", 1)], 3, 2)
    requires d6 == Db(map[Seat(2, 0) := Row(Owner, 1), Seat(1, 1) := Row(Owner, 2), Seat(1, 0) := Row(Owner, 3)],
                      map[0 := Org("a", 1), 1 := Org("b", 1)], 4, 2)
    ensures OwnersOf(d4, 0) == {2} && OwnersOf(d6, 0) == {1, 2} && !Synced(d4, 0)
  {
    assert OwnersOf(d4, 0) == {2} && OwnersOf(d6, 0) == {1, 2};
    assert Least({2}) == 2;
  }

  lemma HandsDoesNotDissolve(db: Db, user: nat, org: nat)
    requires Hands(db, user, org)
    ensures !Dissolves(db, user, org)
  {
    var s :| s in OtherSeats(db, org, user);
    assert s.user in MembersOf(db, org);
  }
}

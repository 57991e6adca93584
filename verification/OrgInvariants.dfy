// What every run of the organization operations keeps.
module OrgInvariants {
  import opened OrgSpec

  // Every organization that has a member has an owner.
  ghost predicate EveryOrgOwned(db: Db) {
    forall s :: s in db.seats ==> OwnersOf(db, s.org) != {}
  }

  ghost predicate AllOwned(db: Db) {
    forall o :: o in db.orgs ==> OwnersOf(db, o) != {}
  }

  // Seats point at organizations, creation positions are distinct, and fresh ids are fresh.
  ghost predicate WellPlaced(db: Db) {
    && (forall s :: s in db.seats ==> s.org in db.orgs && db.seats[s].joined < db.clock)
    && (forall s, t :: s in db.seats && t in db.seats && db.seats[s].joined == db.seats[t].joined ==> s == t)
    && (forall o :: o in db.orgs ==> o < db.nextOrg)
  }

  ghost predicate Inv(db: Db) {
    AllOwned(db) && WellPlaced(db)
  }

  datatype Op =
    | DoCreate(user: nat, name: string)
    | DoAdd(org: nat, user: nat, userExists: bool)
    | DoLeave(user: nat, org: nat)
    | DoSetRole(org: nat, acting: nat, actingIsOwner: bool, target: nat, role: Role)
    | DoRemove(org: nat, acting: nat, actingIsOwner: bool, target: nat)
    | DoDeleteAccount(user: nat)
    | DoBackfill

  // A refused operation changes nothing; a refused account deletion keeps what it has done so far.
  ghost function Step(db: Db, op: Op, selfHosted: bool): Db {
    match op
    case DoCreate(u, name) => Create(db, u, name)
    case DoAdd(o, u, userExists) =>
      var r := AddMember(db, o, u, userExists);
      if r.Ok? then r.value else db
    case DoLeave(u, o) =>
      var r := LeaveOrganization(db, u, o, selfHosted);
      if r.Ok? then r.value.0 else db
    case DoSetRole(o, a, isOwner, t, role) =>
      var r := SetMemberRole(db, o, a, isOwner, t, role);
      if r.Ok? then r.value else db
    case DoRemove(o, a, isOwner, t) =>
      var r := RemoveMember(db, o, a, isOwner, t);
      if r.Ok? then r.value else db
    case DoDeleteAccount(u) => Purge(db, u, selfHosted).db
    case DoBackfill => Backfill(db)
  }

  ghost function Run(db: Db, ops: seq<Op>, selfHosted: bool): Db
    decreases |ops|
  {
    if ops == [] then db else Run(Step(db, ops[0], selfHosted), ops[1..], selfHosted)
  }

  lemma InvOwned(db: Db)
    requires Inv(db)
    ensures EveryOrgOwned(db)
  {
  }

  // ----- what single writes do to the sets of owners -------------------------

  lemma OwnersAfterRemove(db: Db, s: Seat, o: nat)
    ensures OwnersOf(RemoveSeat(db, s), o) == if o == s.org then OwnersOf(db, o) - {s.user} else OwnersOf(db, o)
    ensures MembersOf(RemoveSeat(db, s), o) == if o == s.org then MembersOf(db, o) - {s.user} else MembersOf(db, o)
  {
  }

  lemma OwnedAfterRemove(db: Db, s: Seat, u: nat)
    ensures OwnedBy(RemoveSeat(db, s), u) == if u == s.user then OwnedBy(db, u) - {s.org} else OwnedBy(db, u)
  {
  }

  lemma OwnersAfterSetRole(db: Db, s: Seat, role: Role, o: nat)
    requires s in db.seats
    ensures OwnersOf(SetRole(db, s, role), o)
         == if o != s.org then OwnersOf(db, o) else if role == Owner then OwnersOf(db, o) + {s.user} else OwnersOf(db, o) - {s.user}
    ensures MembersOf(SetRole(db, s, role), o) == MembersOf(db, o)
  {
  }

  lemma OwnedAfterSetRole(db: Db, s: Seat, role: Role, u: nat)
    requires s in db.seats
    ensures OwnedBy(SetRole(db, s, role), u)
         == if u != s.user then OwnedBy(db, u) else if role == Owner then OwnedBy(db, u) + {s.org} else OwnedBy(db, u) - {s.org}
  {
  }

  lemma OwnersAfterDrop(db: Db, org: nat, o: nat)
    ensures OwnersOf(DropOrg(db, org), o) == if o == org then {} else OwnersOf(db, o)
  {
  }

  lemma OwnedAfterDrop(db: Db, org: nat, u: nat)
    ensures OwnedBy(DropOrg(db, org), u) == OwnedBy(db, u) - {org}
  {
  }

  lemma SyncOwners(db: Db, org: nat)
    ensures Sync(db, org).seats == db.seats && Sync(db, org).orgs.Keys == db.orgs.Keys
    ensures forall o :: OwnersOf(Sync(db, org), o) == OwnersOf(db, o) && MembersOf(Sync(db, org), o) == MembersOf(db, o)
    ensures forall u :: OwnedBy(Sync(db, org), u) == OwnedBy(db, u)
    ensures Inv(db) ==> Inv(Sync(db, org))
  {
  }

  // ----- single writes keep the invariant ------------------------------------

  lemma RemoveSeatOrgs(db: Db, s: Seat)
    ensures RemoveSeat(db, s).orgs == db.orgs
  {
  }

  lemma SetRolePlaced(db: Db, s: Seat, role: Role)
    requires WellPlaced(db)
    ensures WellPlaced(SetRole(db, s, role)) && SetRole(db, s, role).orgs == db.orgs
  {
  }

  lemma RemoveSeatKeeps(db: Db, s: Seat)
    requires Inv(db) && s in db.seats && OwnersOf(db, s.org) != {s.user}
    ensures Inv(RemoveSeat(db, s))
  {
    assert WellPlaced(RemoveSeat(db, s));
    hide OwnersOf, WellPlaced, RemoveSeat;
    assert RemoveSeat(db, s).orgs == db.orgs by { RemoveSeatOrgs(db, s); }
    forall o | o in db.orgs ensures OwnersOf(RemoveSeat(db, s), o) != {} {
      OwnersAfterRemove(db, s, o);
      if OwnersOf(db, o) - {s.user} == {} {
        assert OwnersOf(db, o) <= {s.user};
      }
    }
  }

  lemma SetRoleKeeps(db: Db, s: Seat, role: Role)
    requires Inv(db) && s in db.seats && (role == Member ==> OwnersOf(db, s.org) != {s.user})
    ensures Inv(SetRole(db, s, role))
  {
    SetRolePlaced(db, s, role);
    hide OwnersOf, WellPlaced, SetRole;
    forall o | o in db.orgs ensures OwnersOf(SetRole(db, s, role), o) != {} {
      OwnersAfterSetRole(db, s, role, o);
      if OwnersOf(db, o) - {s.user} == {} {
        assert OwnersOf(db, o) <= {s.user};
      }
    }
  }

  lemma DropOrgKeeps(db: Db, org: nat)
    requires Inv(db)
    ensures Inv(DropOrg(db, org))
  {
    hide OwnersOf;
    forall o | o in DropOrg(db, org).orgs ensures OwnersOf(DropOrg(db, org), o) != {} {
      OwnersAfterDrop(db, org, o);
    }
  }

  // ----- operations ----------------------------------------------------------

  lemma OwnersAfterCreate(db: Db, user: nat, name: string, o: nat)
    requires Inv(db)
    ensures OwnersOf(Create(db, user, name), o) == if o == db.nextOrg then {user} else OwnersOf(db, o)
  {
    forall u ensures Seat(u, db.nextOrg) !in db.seats {
      if Seat(u, db.nextOrg) in db.seats {
        assert false;
      }
    }
  }

  lemma CreatePlaced(db: Db, user: nat, name: string)
    requires WellPlaced(db)
    ensures WellPlaced(Create(db, user, name))
  {
  }

  lemma CreateKeeps(db: Db, user: nat, name: string)
    requires Inv(db)
    ensures Inv(Create(db, user, name))
  {
    CreatePlaced(db, user, name);
    hide OwnersOf, WellPlaced;
    forall o | o in Create(db, user, name).orgs ensures OwnersOf(Create(db, user, name), o) != {} {
      OwnersAfterCreate(db, user, name, o);
    }
  }

  lemma OwnedAfterCreate(db: Db, user: nat, name: string, u: nat)
    ensures OwnedBy(db, u) <= OwnedBy(Create(db, user, name), u)
  {
  }

  lemma AddPlaced(db: Db, org: nat, user: nat, userExists: bool)
    requires WellPlaced(db)
    ensures var r := AddMember(db, org, user, userExists); r.Ok? ==> WellPlaced(r.value) && r.value.orgs == db.orgs
  {
  }

  lemma OwnersAfterAdd(db: Db, org: nat, user: nat, userExists: bool, o: nat)
    ensures var r := AddMember(db, org, user, userExists); r.Ok? ==> OwnersOf(r.value, o) == OwnersOf(db, o)
  {
  }

  lemma OwnedAfterAdd(db: Db, org: nat, user: nat, userExists: bool, u: nat)
    ensures var r := AddMember(db, org, user, userExists); r.Ok? ==> OwnedBy(r.value, u) == OwnedBy(db, u)
  {
  }

  lemma AddKeeps(db: Db, org: nat, user: nat, userExists: bool)
    requires Inv(db)
    ensures var r := AddMember(db, org, user, userExists); r.Ok? ==> Inv(r.value)
  {
    AddPlaced(db, org, user, userExists);
    var r := AddMember(db, org, user, userExists);
    if r.Ok? {
      hide OwnersOf, WellPlaced, AddMember;
      forall o | o in r.value.orgs ensures OwnersOf(r.value, o) != {} {
        OwnersAfterAdd(db, org, user, userExists, o);
      }
    }
  }

  lemma OwnersAfterBackfill(db: Db, o: nat)
    ensures OwnersOf(db, o) <= OwnersOf(Backfill(db), o)
  {
  }

  lemma OwnedAfterBackfill(db: Db, u: nat)
    ensures OwnedBy(db, u) <= OwnedBy(Backfill(db), u)
  {
  }

  lemma BackfillPlaced(db: Db)
    requires WellPlaced(db)
    ensures WellPlaced(Backfill(db)) && Backfill(db).orgs == db.orgs
  {
  }

  lemma BackfillKeeps(db: Db)
    requires Inv(db)
    ensures Inv(Backfill(db))
  {
    BackfillPlaced(db);
    hide OwnersOf, WellPlaced, Backfill;
    forall o | o in db.orgs ensures OwnersOf(Backfill(db), o) != {} {
      OwnersAfterBackfill(db, o);
    }
  }

  // The user keeps an owned organization when one of several goes.
  lemma OneOfSeveral(s: set<nat>, x: nat)
    requires |s| > 1
    ensures s - {x} != {}
  {
    if s - {x} == {} {
      assert s <= {x};
      SubsetSize(s, {x});
    }
  }

  lemma {:induction false} SubsetSize(a: set<nat>, b: set<nat>)
    requires a <= b
    ensures |a| <= |b|
    decreases |a|
  {
    if a != {} {
      var x :| x in a;
      SubsetSize(a - {x}, b - {x});
    }
  }

  lemma LeaveKeeps(db: Db, user: nat, org: nat, accountDeletion: bool, selfHosted: bool)
    requires Inv(db) && Leave(db, user, org, accountDeletion, selfHosted).Ok?
    ensures Inv(Leave(db, user, org, accountDeletion, selfHosted).value.0)
  {
    hide OwnersOf, MembersOf, Inv, RemoveSeat, SetRole, DropOrg, Sync;
    var seat := Seat(user, org);
    var r := Leave(db, user, org, accountDeletion, selfHosted);
    match r.value.1
    case MemberLeft =>
      MemberIsNotSoleOwner(db, seat);
      RemoveSeatKeeps(db, seat);
    case OrgDissolved =>
      DropOrgKeeps(db, org);
    case OwnerLeftMulti =>
      RemoveSeatKeeps(db, seat);
      SyncOwners(RemoveSeat(db, seat), org);
    case OwnerPromotedSuccessor =>
      HasOthers(db, user, org);
      var heir := Seat(Heir(db, org, user), org);
      SetRoleKeeps(db, heir, Owner);
      OwnersAfterSetRole(db, heir, Owner, org);
      var raised := SetRole(db, heir, Owner);
      SyncOwners(raised, org);
      SeatsKept(db, heir);
      RemoveSeatKeeps(Sync(raised, org), seat);
  }

  lemma SeatsKept(db: Db, s: Seat)
    ensures SetRole(db, s, Owner).seats.Keys == db.seats.Keys
  {
  }

  lemma MemberIsNotSoleOwner(db: Db, s: Seat)
    requires s in db.seats && db.seats[s].role != Owner
    ensures OwnersOf(db, s.org) != {s.user}
  {
    assert s.user !in OwnersOf(db, s.org);
  }

  lemma NotAlone(s: set<nat>, x: nat)
    requires |s| > 1
    ensures s != {x}
  {
  }

  lemma SetMemberRoleKeeps(db: Db, org: nat, acting: nat, actingIsOwner: bool, target: nat, role: Role)
    requires Inv(db) && SetMemberRole(db, org, acting, actingIsOwner, target, role).Ok?
    ensures Inv(SetMemberRole(db, org, acting, actingIsOwner, target, role).value)
  {
    hide OwnersOf, Inv, SetRole, Sync;
    var seat := Seat(target, org);
    if role == Member {
      NotAlone(OwnersOf(db, org), target);
    }
    SetRoleKeeps(db, seat, role);
    SyncOwners(SetRole(db, seat, role), org);
  }

  lemma RemoveMemberKeeps(db: Db, org: nat, acting: nat, actingIsOwner: bool, target: nat)
    requires Inv(db) && RemoveMember(db, org, acting, actingIsOwner, target).Ok?
    ensures Inv(RemoveMember(db, org, acting, actingIsOwner, target).value)
  {
    hide OwnersOf, Inv, RemoveSeat, Sync;
    var seat := Seat(target, org);
    if db.seats[seat].role == Owner {
      NotAlone(OwnersOf(db, org), target);
    } else {
      MemberIsNotSoleOwner(db, seat);
    }
    RemoveSeatKeeps(db, seat);
    SyncOwners(RemoveSeat(db, seat), org);
  }

  lemma {:induction false} PurgeKeeps(db: Db, user: nat, selfHosted: bool)
    requires Inv(db)
    ensures Inv(Purge(db, user, selfHosted).db)
    decreases |SeatsOf(db, user)|
  {
    hide Inv, Leave, SeatsOf;
    if SeatsOf(db, user) != {} {
      var org := FirstOrg(db, user);
      var r := Leave(db, user, org, true, selfHosted);
      if r.Ok? {
        LeaveKeeps(db, user, org, true, selfHosted);
        LeaveDropsSeat(db, user, org, true, selfHosted);
        SeatsShrink(SeatsOf(db, user), Seat(user, org));
        PurgeKeeps(r.value.0, user, selfHosted);
      }
    }
  }

  lemma SeatsShrink(s: set<Seat>, x: Seat)
    requires x in s
    ensures |s - {x}| < |s|
  {
  }

  lemma StepKeepsInv(db: Db, op: Op, selfHosted: bool)
    requires Inv(db)
    ensures Inv(Step(db, op, selfHosted))
  {
    hide Inv, Leave, Purge, SetMemberRole, RemoveMember, AddMember, Create, Backfill;
    match op
    case DoCreate(u, name) => CreateKeeps(db, u, name);
    case DoAdd(o, u, userExists) => AddKeeps(db, o, u, userExists);
    case DoLeave(u, o) =>
      if LeaveOrganization(db, u, o, selfHosted).Ok? { LeaveKeeps(db, u, o, false, selfHosted); }
    case DoSetRole(o, a, isOwner, t, role) =>
      if SetMemberRole(db, o, a, isOwner, t, role).Ok? { SetMemberRoleKeeps(db, o, a, isOwner, t, role); }
    case DoRemove(o, a, isOwner, t) =>
      if RemoveMember(db, o, a, isOwner, t).Ok? { RemoveMemberKeeps(db, o, a, isOwner, t); }
    case DoDeleteAccount(u) => PurgeKeeps(db, u, selfHosted);
    case DoBackfill => BackfillKeeps(db);
  }

  // In every run, every organization keeps an owner.
  lemma {:induction false} RunKeepsInv(db: Db, ops: seq<Op>, selfHosted: bool)
    requires Inv(db)
    ensures Inv(Run(db, ops, selfHosted)) && EveryOrgOwned(Run(db, ops, selfHosted))
    decreases |ops|
  {
    if ops == [] {
      InvOwned(db);
    } else {
      StepKeepsInv(db, ops[0], selfHosted);
      RunKeepsInv(Step(db, ops[0], selfHosted), ops[1..], selfHosted);
    }
  }

  // ----- nobody else takes a user's last owned organization ------------------

  ghost predicate OwnsSome(db: Db, user: nat) {
    OwnedBy(db, user) != {}
  }

  lemma LeaveKeepsOwned(db: Db, user: nat, org: nat, accountDeletion: bool, selfHosted: bool, u: nat)
    requires Leave(db, user, org, accountDeletion, selfHosted).Ok? && OwnsSome(db, u)
    requires accountDeletion ==> u != user
    ensures OwnsSome(Leave(db, user, org, accountDeletion, selfHosted).value.0, u)
  {
    hide RemoveSeat, SetRole, DropOrg, Sync, OwnersOf, MembersOf, OwnedBy;
    var seat := Seat(user, org);
    var r := Leave(db, user, org, accountDeletion, selfHosted);
    if db.seats[seat].role != Owner {
      OwnedAfterRemove(db, seat, u);
      MemberOwnsNot(db, seat);
    } else {
      if u == user { OneOfSeveral(OwnedBy(db, user), org); }
      match r.value.1
      case MemberLeft => assert false;
      case OrgDissolved =>
        OwnedAfterDrop(db, org, u);
        if u != user { SoleMemberOwns(db, org, user, u); }
      case OwnerLeftMulti =>
        OwnedAfterRemove(db, seat, u);
        SyncOwners(RemoveSeat(db, seat), org);
      case OwnerPromotedSuccessor =>
        HasOthers(db, user, org);
        var heir := Seat(Heir(db, org, user), org);
        OwnedAfterSetRole(db, heir, Owner, u);
        SyncOwners(SetRole(db, heir, Owner), org);
        OwnedAfterRemove(Sync(SetRole(db, heir, Owner), org), seat, u);
    }
  }

  lemma MemberOwnsNot(db: Db, s: Seat)
    requires s in db.seats && db.seats[s].role != Owner
    ensures s.org !in OwnedBy(db, s.user)
  {
  }

  lemma SoleMemberOwns(db: Db, org: nat, user: nat, u: nat)
    requires MembersOf(db, org) == {user} && u != user
    ensures org !in OwnedBy(db, u)
  {
    assert u !in MembersOf(db, org);
  }

  lemma SetMemberRoleKeepsOwned(db: Db, org: nat, acting: nat, actingIsOwner: bool, target: nat, role: Role, u: nat)
    requires SetMemberRole(db, org, acting, actingIsOwner, target, role).Ok? && OwnsSome(db, u)
    ensures OwnsSome(SetMemberRole(db, org, acting, actingIsOwner, target, role).value, u)
  {
    hide SetRole, Sync, OwnersOf, OwnedBy;
    var seat := Seat(target, org);
    OwnedAfterSetRole(db, seat, role, u);
    SyncOwners(SetRole(db, seat, role), org);
    if role == Member && u == target { OneOfSeveral(OwnedBy(db, u), org); }
  }

  lemma RemoveMemberKeepsOwned(db: Db, org: nat, acting: nat, actingIsOwner: bool, target: nat, u: nat)
    requires RemoveMember(db, org, acting, actingIsOwner, target).Ok? && OwnsSome(db, u)
    ensures OwnsSome(RemoveMember(db, org, acting, actingIsOwner, target).value, u)
  {
    hide RemoveSeat, Sync, OwnersOf, OwnedBy;
    var seat := Seat(target, org);
    OwnedAfterRemove(db, seat, u);
    SyncOwners(RemoveSeat(db, seat), org);
    if db.seats[seat].role == Owner {
      if u == target { OneOfSeveral(OwnedBy(db, u), org); }
    } else {
      MemberOwnsNot(db, seat);
    }
  }

  lemma {:induction false} PurgeKeepsOwned(db: Db, user: nat, selfHosted: bool, u: nat)
    requires OwnsSome(db, u) && u != user
    ensures OwnsSome(Purge(db, user, selfHosted).db, u)
    decreases |SeatsOf(db, user)|
  {
    hide OwnsSome, Leave, SeatsOf;
    if SeatsOf(db, user) != {} {
      var org := FirstOrg(db, user);
      var r := Leave(db, user, org, true, selfHosted);
      if r.Ok? {
        LeaveKeepsOwned(db, user, org, true, selfHosted, u);
        LeaveDropsSeat(db, user, org, true, selfHosted);
        SeatsShrink(SeatsOf(db, user), Seat(user, org));
        PurgeKeepsOwned(r.value.0, user, selfHosted, u);
      }
    }
  }

  // Only the deletion of one's own account takes away the last organization one owns.
  lemma StepKeepsOwned(db: Db, op: Op, selfHosted: bool, u: nat)
    requires Inv(db) && OwnsSome(db, u) && op != DoDeleteAccount(u)
    ensures OwnsSome(Step(db, op, selfHosted), u)
  {
    hide Inv, Leave, Purge, SetMemberRole, RemoveMember, AddMember, Create, Backfill, OwnedBy;
    match op
    case DoCreate(v, name) => OwnedAfterCreate(db, v, name, u);
    case DoAdd(o, v, userExists) => OwnedAfterAdd(db, o, v, userExists, u);
    case DoLeave(v, o) =>
      if LeaveOrganization(db, v, o, selfHosted).Ok? { LeaveKeepsOwned(db, v, o, false, selfHosted, u); }
    case DoSetRole(o, a, isOwner, t, role) =>
      if SetMemberRole(db, o, a, isOwner, t, role).Ok? { SetMemberRoleKeepsOwned(db, o, a, isOwner, t, role, u); }
    case DoRemove(o, a, isOwner, t) =>
      if RemoveMember(db, o, a, isOwner, t).Ok? { RemoveMemberKeepsOwned(db, o, a, isOwner, t, u); }
    case DoDeleteAccount(v) => PurgeKeepsOwned(db, v, selfHosted, u);
    case DoBackfill => OwnedAfterBackfill(db, u);
  }

  lemma {:induction false} RunKeepsOwned(db: Db, ops: seq<Op>, selfHosted: bool, u: nat)
    requires Inv(db) && OwnsSome(db, u) && DoDeleteAccount(u) !in ops
    ensures OwnsSome(Run(db, ops, selfHosted), u)
    decreases |ops|
  {
    if ops != [] {
      StepKeepsInv(db, ops[0], selfHosted);
      StepKeepsOwned(db, ops[0], selfHosted, u);
      RunKeepsOwned(Step(db, ops[0], selfHosted), ops[1..], selfHosted, u);
    }
  }
}

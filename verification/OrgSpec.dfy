// Organizations, their members and their owners: what each service operation does to the
// membership table, as functions on table values.
module OrgSpec {

  datatype Role = Owner | Member

  // Primary key of a membership: one row per user and organization.
  datatype Seat = Seat(user: nat, org: nat)

  // `joined` is the position of the row in creation order.
  datatype Row = Row(role: Role, joined: nat)

  datatype Org = Org(name: string, ownerId: nat)

  // `clock` and `nextOrg` are above every creation position and every organization id in use.
  datatype Db = Db(seats: map<Seat, Row>, orgs: map<nat, Org>, clock: nat, nextOrg: nat)

  datatype Failure = NotFound | Forbidden | Conflict | BadRequest

  datatype Result<+T> = Ok(value: T) | Err(failure: Failure)

  // ----- reading the table ---------------------------------------------------

  function MembersOf(db: Db, org: nat): (r: set<nat>)
    ensures forall u :: u in r <==> Seat(u, org) in db.seats
  {
    set s | s in db.seats && s.org == org :: s.user
  }

  function OwnersOf(db: Db, org: nat): (r: set<nat>)
    ensures forall u :: u in r <==> Seat(u, org) in db.seats && db.seats[Seat(u, org)].role == Owner
  {
    set s | s in db.seats && s.org == org && db.seats[s].role == Owner :: s.user
  }

  function OrgsOf(db: Db, user: nat): (r: set<nat>)
    ensures forall o :: o in r <==> Seat(user, o) in db.seats
  {
    set s | s in db.seats && s.user == user :: s.org
  }

  function OwnedBy(db: Db, user: nat): (r: set<nat>)
    ensures forall o :: o in r <==> Seat(user, o) in db.seats && db.seats[Seat(user, o)].role == Owner
  {
    set s | s in db.seats && s.user == user && db.seats[s].role == Owner :: s.org
  }

  ghost predicate IsLeast(s: set<nat>, m: nat) {
    m in s && forall x :: x in s ==> m <= x
  }

  lemma {:induction false} LeastExists(s: set<nat>)
    requires s != {}
    ensures exists m :: IsLeast(s, m)
    decreases |s|
  {
    var x :| x in s;
    if s == {x} {
      assert IsLeast(s, x);
    } else {
      LeastExists(s - {x});
      var m :| IsLeast(s - {x}, m);
      var pick := if x < m then x else m;
      forall y | y in s ensures pick <= y {
        assert y == x || y in s - {x};
      }
      assert IsLeast(s, pick);
    }
  }

  ghost function Least(s: set<nat>): (m: nat)
    requires s != {}
    ensures IsLeast(s, m)
  {
    LeastExists(s);
    var m :| IsLeast(s, m);
    m
  }

  // The seat created first among some.
  ghost predicate IsEarliest(db: Db, among: set<Seat>, s: Seat)
    requires among <= db.seats.Keys
  {
    s in among && forall t :: t in among ==> db.seats[s].joined <= db.seats[t].joined
  }

  lemma {:induction false} EarliestExists(db: Db, among: set<Seat>)
    requires among != {} && among <= db.seats.Keys
    ensures exists s :: IsEarliest(db, among, s)
    decreases |among|
  {
    var x :| x in among;
    if among == {x} {
      assert IsEarliest(db, among, x);
    } else {
      EarliestExists(db, among - {x});
      var m :| IsEarliest(db, among - {x}, m);
      var pick := if db.seats[x].joined < db.seats[m].joined then x else m;
      forall t | t in among ensures db.seats[pick].joined <= db.seats[t].joined {
        assert t == x || t in among - {x};
      }
      assert IsEarliest(db, among, pick);
    }
  }

  ghost function Earliest(db: Db, among: set<Seat>): (s: Seat)
    requires among != {} && among <= db.seats.Keys
    ensures IsEarliest(db, among, s)
  {
    EarliestExists(db, among);
    var s :| IsEarliest(db, among, s);
    s
  }

  function OtherSeats(db: Db, org: nat, user: nat): (r: set<Seat>)
    ensures forall s :: s in r <==> s in db.seats && s.org == org && s.user != user
    ensures r <= db.seats.Keys
  {
    set s | s in db.seats && s.org == org && s.user != user
  }

  function SeatsOf(db: Db, user: nat): (r: set<Seat>)
    ensures forall s :: s in r <==> s in db.seats && s.user == user
    ensures r <= db.seats.Keys
  {
    set s | s in db.seats && s.user == user
  }

  // The member that succeeds `user` as owner: the first one to have joined.
  ghost function Heir(db: Db, org: nat, user: nat): (v: nat)
    requires OtherSeats(db, org, user) != {}
    ensures v != user && Seat(v, org) in db.seats
  {
    Earliest(db, OtherSeats(db, org, user)).user
  }

  // ----- single writes -------------------------------------------------------

  function RemoveSeat(db: Db, s: Seat): Db {
    db.(seats := db.seats - {s})
  }

  function SetRole(db: Db, s: Seat, role: Role): Db {
    if s in db.seats then db.(seats := db.seats[s := db.seats[s].(role := role)]) else db
  }

  function DropOrg(db: Db, org: nat): Db {
    db.(seats := map s | s in db.seats && s.org != org :: db.seats[s], orgs := db.orgs - {org})
  }

  // Aligns `ownerId` with the least owner id.
  ghost function Sync(db: Db, org: nat): Db {
    if OwnersOf(db, org) == {} || org !in db.orgs then db
    else db.(orgs := db.orgs[org := db.orgs[org].(ownerId := Least(OwnersOf(db, org)))])
  }

  // ----- service operations --------------------------------------------------

  function Create(db: Db, user: nat, name: string): Db {
    db.(orgs := db.orgs[db.nextOrg := Org(name, user)],
        seats := db.seats[Seat(user, db.nextOrg) := Row(Owner, db.clock)],
        clock := db.clock + 1,
        nextOrg := db.nextOrg + 1)
  }

  // The role column defaults to `member`.
  function AddMember(db: Db, org: nat, user: nat, userExists: bool): Result<Db> {
    if org !in db.orgs || !userExists then Err(NotFound)
    else if Seat(user, org) in db.seats then Err(Conflict)
    else Ok(db.(seats := db.seats[Seat(user, org) := Row(Member, db.clock)], clock := db.clock + 1))
  }

  const ROOT_ORG := "Root Org"

  predicate IsProtected(db: Db, org: nat, selfHosted: bool) {
    selfHosted && org in db.orgs && db.orgs[org].name == ROOT_ORG
  }

  // Losing the owner role in `org` leaves `user` without any owned organization.
  predicate LosesLastOwned(db: Db, user: nat, org: nat) {
    Seat(user, org) in db.seats && db.seats[Seat(user, org)].role == Owner && |OwnedBy(db, user)| <= 1
  }

  datatype Outcome = MemberLeft | OrgDissolved | OwnerLeftMulti | OwnerPromotedSuccessor

  ghost function Leave(db: Db, user: nat, org: nat, accountDeletion: bool, selfHosted: bool): Result<(Db, Outcome)> {
    var seat := Seat(user, org);
    if seat !in db.seats then Err(NotFound)
    else if db.seats[seat].role != Owner then Ok((RemoveSeat(db, seat), MemberLeft))
    else if !accountDeletion && LosesLastOwned(db, user, org) then Err(Conflict)
    else if MembersOf(db, org) == {user} then
      if IsProtected(db, org, selfHosted) then Err(Forbidden) else Ok((DropOrg(db, org), OrgDissolved))
    else if OwnersOf(db, org) != {user} then Ok((Sync(RemoveSeat(db, seat), org), OwnerLeftMulti))
    else
      HasOthers(db, user, org);
      var promoted := Sync(SetRole(db, Seat(Heir(db, org, user), org), Owner), org);
      Ok((RemoveSeat(promoted, seat), OwnerPromotedSuccessor))
  }

  lemma HasOthers(db: Db, user: nat, org: nat)
    requires Seat(user, org) in db.seats && MembersOf(db, org) != {user}
    ensures OtherSeats(db, org, user) != {}
  {
    var u :| u in MembersOf(db, org) && u != user;
    assert Seat(u, org) in OtherSeats(db, org, user);
  }

  // The public endpoint: refused on the protected organization whatever the role.
  ghost function LeaveOrganization(db: Db, user: nat, org: nat, selfHosted: bool): Result<(Db, Outcome)> {
    if IsProtected(db, org, selfHosted) then Err(Forbidden) else Leave(db, user, org, false, selfHosted)
  }

  // `actingIsOwner` comes from the caller's context and may be stale: nothing below relies on it.
  ghost function SetMemberRole(db: Db, org: nat, acting: nat, actingIsOwner: bool, target: nat, role: Role): Result<Db> {
    var seat := Seat(target, org);
    if !actingIsOwner then Err(Forbidden)
    else if role == Owner && target == acting then Err(BadRequest)
    else if seat !in db.seats then Err(BadRequest)
    else if role == db.seats[seat].role then Err(BadRequest)
    else if role == Member && |OwnersOf(db, org)| <= 1 then Err(BadRequest)
    else if role == Member && LosesLastOwned(db, target, org) then Err(Conflict)
    else Ok(Sync(SetRole(db, seat, role), org))
  }

  ghost function RemoveMember(db: Db, org: nat, acting: nat, actingIsOwner: bool, target: nat): Result<Db> {
    var seat := Seat(target, org);
    if !actingIsOwner then Err(Forbidden)
    else if target == acting then Err(BadRequest)
    else if seat !in db.seats then Err(BadRequest)
    else if db.seats[seat].role == Owner && |OwnersOf(db, org)| <= 1 then Err(BadRequest)
    else if db.seats[seat].role == Owner && LosesLastOwned(db, target, org) then Err(Conflict)
    else if db.seats[seat].role == Owner then Ok(Sync(RemoveSeat(db, seat), org))
    else Ok(RemoveSeat(db, seat))
  }

  // The start-up pass: whoever `ownerId` names and is a member becomes an owner.
  function Backfill(db: Db): Db {
    db.(seats := map s | s in db.seats ::
      if s.org in db.orgs && db.orgs[s.org].ownerId == s.user then db.seats[s].(role := Owner) else db.seats[s])
  }

  // Account deletion: leave the organization joined first until none is left, or until one refuses.
  ghost function FirstOrg(db: Db, user: nat): (o: nat)
    requires SeatsOf(db, user) != {}
    ensures Seat(user, o) in db.seats
  {
    Earliest(db, SeatsOf(db, user)).org
  }

  // After leaving, exactly that seat of the leaver is gone.
  lemma LeaveDropsSeat(db: Db, user: nat, org: nat, accountDeletion: bool, selfHosted: bool)
    ensures var r := Leave(db, user, org, accountDeletion, selfHosted);
            r.Ok? ==> SeatsOf(r.value.0, user) == SeatsOf(db, user) - {Seat(user, org)} && Seat(user, org) in db.seats
  {
  }

  datatype Purged = Purged(db: Db, done: bool)

  ghost function Purge(db: Db, user: nat, selfHosted: bool): Purged
    decreases |SeatsOf(db, user)|
  {
    if SeatsOf(db, user) == {} then Purged(db, true)
    else
      var org := FirstOrg(db, user);
      match Leave(db, user, org, true, selfHosted)
      case Err(_) => Purged(db, false)
      case Ok(next) =>
        LeaveDropsSeat(db, user, org, true, selfHosted);
        assert |SeatsOf(db, user) - {Seat(user, org)}| < |SeatsOf(db, user)|;
        Purge(next.0, user, selfHosted)
  }
}

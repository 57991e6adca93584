// Git accounts: which account of an organization and provider is the active one, through updates
// that may fail half way, creations, removals and reads that repair the choice.
module GitAccounts {
  import opened Wrappers
  import ComposeText

  datatype Provider = GitHub | GitLab

  datatype Scope = Scope(org: int, provider: Provider)

  // The provider fields of an account, secrets included.
  type Config = string

  // `updated` is the position of the last write of the row; the database stamps every write.
  datatype Account = Account(scope: Scope, publicId: Option<string>, name: string, config: Config, active: bool, updated: nat)

  datatype Db = Db(rows: map<nat, Account>, clock: nat, nextId: nat)

  datatype Failure = BadRequest | Internal

  datatype Outcome = Done(db: Db) | Failed(db: Db, failure: Failure)

  // `edit` applies the provider fields of the request; it has no result when a secret cannot be
  // encrypted or the GitLab URL is refused.
  datatype Request = Request(publicId: string, createNew: bool, name: string, provider: Option<Provider>, touchesGithub: bool, edit: Config -> Option<Config>, newPublicId: string)

  const EMPTY: Config := ""

  // ----- reading the table ---------------------------------------------------

  function In(db: Db, s: Scope): (r: set<nat>)
    ensures forall id :: id in r <==> id in db.rows && db.rows[id].scope == s
  {
    set id | id in db.rows && db.rows[id].scope == s
  }

  function ActiveIn(db: Db, s: Scope): (r: set<nat>)
    ensures forall id :: id in r <==> id in db.rows && db.rows[id].scope == s && db.rows[id].active
  {
    set id | id in db.rows && db.rows[id].scope == s && db.rows[id].active
  }

  function Named(db: Db, org: int, publicId: string): (r: set<nat>)
    ensures forall id :: id in r <==> id in db.rows && db.rows[id].scope.org == org && db.rows[id].publicId == Some(publicId)
  {
    set id | id in db.rows && db.rows[id].scope.org == org && db.rows[id].publicId == Some(publicId)
  }

  ghost predicate IsLatest(db: Db, among: set<nat>, id: nat) {
    && among <= db.rows.Keys && id in among
    && forall x :: x in among ==> db.rows[x].updated <= db.rows[id].updated
  }

  lemma {:induction false} LatestExists(db: Db, among: set<nat>)
    requires among <= db.rows.Keys && among != {}
    ensures exists id :: IsLatest(db, among, id)
    decreases |among|
  {
    var x :| x in among;
    if among == {x} {
      assert IsLatest(db, among, x);
    } else {
      LatestExists(db, among - {x});
      var y :| IsLatest(db, among - {x}, y);
      assert IsLatest(db, among, if db.rows[x].updated > db.rows[y].updated then x else y);
    }
  }

  // ORDER BY updated_at DESC, first row
  ghost function Latest(db: Db, among: set<nat>): (id: nat)
    requires among <= db.rows.Keys && among != {}
    ensures IsLatest(db, among, id)
  {
    LatestExists(db, among);
    var id :| IsLatest(db, among, id);
    id
  }

  // ----- what every state satisfies ------------------------------------------

  ghost predicate AtMostOneActive(db: Db) {
    forall a, b :: a in db.rows && b in db.rows && db.rows[a].active && db.rows[b].active && db.rows[a].scope == db.rows[b].scope ==> a == b
  }

  ghost predicate Stamped(db: Db) {
    && (forall a :: a in db.rows ==> db.rows[a].updated < db.clock && a < db.nextId)
    && forall a, b :: a in db.rows && b in db.rows && db.rows[a].updated == db.rows[b].updated ==> a == b
  }

  // Public ids are unique in the table.
  ghost predicate UniqueNames(db: Db) {
    forall a, b :: a in db.rows && b in db.rows && db.rows[a].publicId.Some? && db.rows[a].publicId == db.rows[b].publicId ==> a == b
  }

  ghost predicate Inv(db: Db) {
    AtMostOneActive(db) && Stamped(db) && UniqueNames(db)
  }

  // ----- the writes ----------------------------------------------------------

  function Put(db: Db, id: nat, a: Account): Db {
    Db(db.rows[id := a.(updated := db.clock)], db.clock + 1, db.nextId)
  }

  // Nothing is written when the row already says the same.
  function Save(db: Db, id: nat, a: Account): Db
    requires id in db.rows
  {
    if a.(updated := db.rows[id].updated) == db.rows[id] then db else Put(db, id, a)
  }

  function Insert(db: Db, a: Account): Db {
    Put(db, db.nextId, a).(nextId := db.nextId + 1)
  }

  function Delete(db: Db, id: nat): Db {
    db.(rows := db.rows - {id})
  }

  function Deactivated(a: Account, s: Scope, clock: nat): Account {
    if a.scope == s && a.active then a.(active := false, updated := clock) else a
  }

  function Deactivate(db: Db, s: Scope): Db {
    Db(map id | id in db.rows :: Deactivated(db.rows[id], s, db.clock), db.clock + 1, db.nextId)
  }

  function Reseal(db: Db, id: nat, seal: Config -> Config): Db
    requires id in db.rows
  {
    Save(db, id, db.rows[id].(config := seal(db.rows[id].config)))
  }

  // ----- the operations ------------------------------------------------------

  // The row a scope works with: the active one, else the one written last, which becomes active.
  ghost function Pick(db: Db, s: Scope): nat
    requires In(db, s) != {}
  {
    if ActiveIn(db, s) != {} then Latest(db, ActiveIn(db, s)) else Latest(db, In(db, s))
  }

  ghost function Ensure(db: Db, s: Scope, seal: Config -> Config): Db {
    if In(db, s) == {} then db
    else
      var id := Pick(db, s);
      Reseal(Save(db, id, db.rows[id].(active := true)), id, seal)
  }

  ghost function Obtain(db: Db, s: Scope, newPublicId: string, seal: Config -> Config): (r: Db)
    ensures ActiveIn(r, s) != {}
  {
    if In(db, s) != {} then
      var id := Pick(db, s);
      var r := Ensure(db, s, seal);
      assert id in ActiveIn(r, s);
      r
    else
      assert db.nextId in ActiveIn(Insert(db, Account(s, Some(newPublicId), "Default account", EMPTY, true, 0)), s);
      var r := Reseal(Insert(db, Account(s, Some(newPublicId), "Default account", EMPTY, true, 0)), db.nextId, seal);
      assert db.nextId in ActiveIn(r, s);
      r
  }

  // Both providers, as the settings page reads them.
  ghost function Read(db: Db, org: int, seal: Config -> Config): Db {
    Ensure(Ensure(db, Scope(org, GitHub), seal), Scope(org, GitLab), seal)
  }

  // The page also fills in a missing GitHub slug when `slug` finds one.
  ghost function GetSettings(db: Db, org: int, seal: Config -> Config, slug: Config -> Config): Outcome {
    if org < 1 then Failed(db, Internal)
    else
      var r := Read(db, org, seal);
      var s := Scope(org, GitHub);
      if ActiveIn(r, s) == {} then Done(r)
      else
        var id := Latest(r, ActiveIn(r, s));
        Done(Save(r, id, r.rows[id].(config := slug(r.rows[id].config))))
  }

  function NewAccount(s: Scope, publicId: string, name: string): Account {
    Account(s, Some(publicId), name, EMPTY, true, 0)
  }

  // The provider an update is about.
  ghost function ProviderOf(db: Db, org: int, q: Request): Provider {
    var asked := if q.provider.Some? then q.provider.value else if q.touchesGithub then GitHub else GitLab;
    var pid := ComposeText.Trim(q.publicId);
    if !q.touchesGithub && pid != "" && Named(db, org, pid) != {} then db.rows[Latest(db, Named(db, org, pid))].scope.provider
    else asked
  }

  function Renamed(a: Account, q: Request): Account {
    if ComposeText.Trim(q.name) != "" then a.(name := ComposeText.Trim(q.name)) else a
  }

  // The last part of an update: apply the fields to the row in memory, then write it.
  function Apply(db: Db, id: nat, a: Account, q: Request): Outcome
    requires id in db.rows || id == db.nextId
  {
    var edited := q.edit(a.config);
    if edited.None? then Failed(db, BadRequest)
    else
      var row := Renamed(a, q).(config := edited.value);
      Done(if id in db.rows then Save(db, id, row) else Insert(db, row))
  }

  ghost function UpdateRow(db: Db, s: Scope, q: Request, seal: Config -> Config): Outcome {
    var pid := ComposeText.Trim(q.publicId);
    if pid != "" then
      var found := Named(db, s.org, pid) * In(db, s);
      if found == {} then Failed(db, BadRequest)
      else
        var id := Latest(db, found);
        Apply(Deactivate(db, s), id, db.rows[id].(active := true), q)
    else if q.createNew then
      if ComposeText.Trim(q.name) == "" then Failed(db, BadRequest)
      else
        var off := Deactivate(db, s);
        Apply(off, off.nextId, NewAccount(s, q.newPublicId, ComposeText.Trim(q.name)), q)
    else
      var ready := Obtain(db, s, q.newPublicId, seal);
      var id := Latest(ready, ActiveIn(ready, s));
      Apply(ready, id, ready.rows[id], q)
  }

  ghost function UpdateSettings(db: Db, org: int, q: Request, seal: Config -> Config): Outcome {
    if org < 1 then Failed(db, Internal)
    else
      var r := UpdateRow(db, Scope(org, ProviderOf(db, org, q)), q, seal);
      if r.Failed? then r else Done(Read(r.db, org, seal))
  }

  ghost function CreateAccount(db: Db, org: int, q: Request, seal: Config -> Config, slug: Config -> Config): Outcome {
    var name := ComposeText.Trim(q.name);
    if org < 1 then Failed(db, Internal)
    else if name == "" then Failed(db, BadRequest)
    else
      var s := Scope(org, if q.provider.Some? then q.provider.value else GitLab);
      var off := Deactivate(db, s);
      var edited := q.edit(EMPTY);
      if edited.None? then Failed(off, BadRequest)
      else GetSettings(Insert(off, NewAccount(s, q.newPublicId, name).(config := edited.value)), org, seal, slug)
  }

  // Removing an account: when none is left active, the one written last takes over.
  ghost function Remove(db: Db, id: nat): Db
    requires id in db.rows
  {
    var s := db.rows[id].scope;
    var gone := Delete(db, id);
    if ActiveIn(gone, s) == {} && In(gone, s) != {} then
      var next := Latest(gone, In(gone, s));
      Save(gone, next, gone.rows[next].(active := true))
    else gone
  }

  ghost function RemoveAccount(db: Db, org: int, publicId: string, seal: Config -> Config, slug: Config -> Config): Outcome {
    var pid := ComposeText.Trim(publicId);
    if org < 1 then Failed(db, Internal)
    else if pid == "" || Named(db, org, pid) == {} then Failed(db, BadRequest)
    else GetSettings(Remove(db, Latest(db, Named(db, org, pid))), org, seal, slug)
  }

  // ----- what the writes keep ------------------------------------------------

  // The same accounts, in the same scopes and under the same names.
  ghost predicate SameAccounts(a: Db, b: Db) {
    && a.rows.Keys == b.rows.Keys && a.nextId == b.nextId && a.clock <= b.clock
    && forall id :: id in a.rows ==> a.rows[id].scope == b.rows[id].scope && a.rows[id].publicId == b.rows[id].publicId
  }

  // Only accounts of scope `s` were written, added or removed.
  ghost predicate OnlyIn(a: Db, b: Db, s: Scope) {
    && (forall id :: id in a.rows && a.rows[id].scope != s ==> id in b.rows && b.rows[id] == a.rows[id])
    && (forall id :: id in b.rows && b.rows[id].scope != s ==> id in a.rows && a.rows[id] == b.rows[id])
  }

  ghost predicate OnlyInOrg(a: Db, b: Db, org: int) {
    && (forall id :: id in a.rows && a.rows[id].scope.org != org ==> id in b.rows && b.rows[id] == a.rows[id])
    && (forall id :: id in b.rows && b.rows[id].scope.org != org ==> id in a.rows && a.rows[id] == b.rows[id])
  }

  // Writing the active account of a scope, or one that stays inactive.
  lemma SaveKeeps(db: Db, id: nat, a: Account)
    requires Inv(db) && id in db.rows && a.scope == db.rows[id].scope && a.publicId == db.rows[id].publicId
    requires a.active ==> ActiveIn(db, a.scope) <= {id}
    ensures var r := Save(db, id, a);
            && Inv(r) && SameAccounts(db, r) && OnlyIn(db, r, a.scope)
            && ActiveIn(r, a.scope) == (if a.active then {id} else ActiveIn(db, a.scope) - {id})
            && forall s: Scope :: s != a.scope ==> ActiveIn(r, s) == ActiveIn(db, s)
  {
    SaveOneActive(db, id, a);
    SaveStamps(db, id, a);
    SaveActive(db, id, a);
    var r := Save(db, id, a);
    hide AtMostOneActive, Stamped, UniqueNames;
    assert forall x :: x in db.rows && x != id ==> r.rows[x] == db.rows[x];
  }

  lemma SaveStamps(db: Db, id: nat, a: Account)
    requires Stamped(db) && UniqueNames(db) && id in db.rows && a.publicId == db.rows[id].publicId
    ensures Stamped(Save(db, id, a)) && UniqueNames(Save(db, id, a))
  {
    var r := Save(db, id, a);
    assert forall x :: x in db.rows && x != id ==> r.rows[x] == db.rows[x];
  }

  lemma SaveOneActive(db: Db, id: nat, a: Account)
    requires AtMostOneActive(db) && id in db.rows && a.scope == db.rows[id].scope
    requires a.active ==> ActiveIn(db, a.scope) <= {id}
    ensures AtMostOneActive(Save(db, id, a))
  {
  }

  lemma SaveActive(db: Db, id: nat, a: Account)
    requires AtMostOneActive(db) && id in db.rows && a.scope == db.rows[id].scope
    requires a.active ==> ActiveIn(db, a.scope) <= {id}
    ensures var r := Save(db, id, a);
            && ActiveIn(r, a.scope) == (if a.active then {id} else ActiveIn(db, a.scope) - {id})
            && forall s: Scope :: s != a.scope ==> ActiveIn(r, s) == ActiveIn(db, s)
  {
    var r := Save(db, id, a);
    assert forall x :: x in db.rows && x != id ==> r.rows[x] == db.rows[x];
  }

  lemma DeactivateKeeps(db: Db, s: Scope)
    requires Inv(db)
    ensures var r := Deactivate(db, s);
            && Inv(r) && SameAccounts(db, r) && OnlyIn(db, r, s)
            && ActiveIn(r, s) == {}
            && forall t: Scope :: t != s ==> ActiveIn(r, t) == ActiveIn(db, t)
  {
    DeactivateStamps(db, s);
    hide Stamped, UniqueNames;
  }

  lemma DeactivateStamps(db: Db, s: Scope)
    requires Inv(db)
    ensures Stamped(Deactivate(db, s)) && UniqueNames(Deactivate(db, s))
  {
  }

  lemma InsertKeeps(db: Db, a: Account)
    requires Inv(db) && (a.active ==> ActiveIn(db, a.scope) == {})
    requires a.publicId.Some? ==> forall id :: id in db.rows ==> db.rows[id].publicId != a.publicId
    ensures var r := Insert(db, a);
            && Inv(r) && OnlyIn(db, r, a.scope)
            && ActiveIn(r, a.scope) == (if a.active then {db.nextId} else ActiveIn(db, a.scope))
            && In(r, a.scope) == In(db, a.scope) + {db.nextId}
            && forall s: Scope :: s != a.scope ==> ActiveIn(r, s) == ActiveIn(db, s) && In(r, s) == In(db, s)
  {
    InsertInv(db, a);
    hide AtMostOneActive, UniqueNames;
    var r := Insert(db, a);
    assert db.nextId !in db.rows;
    assert forall x :: x in db.rows ==> r.rows[x] == db.rows[x];
    hide Stamped;
  }

  lemma InsertInv(db: Db, a: Account)
    requires Inv(db) && (a.active ==> ActiveIn(db, a.scope) == {})
    requires a.publicId.Some? ==> forall id :: id in db.rows ==> db.rows[id].publicId != a.publicId
    ensures Inv(Insert(db, a))
  {
    var r := Insert(db, a);
    assert db.nextId !in db.rows;
    assert forall x :: x in db.rows ==> r.rows[x] == db.rows[x];
  }

  lemma SameIn(a: Db, b: Db, s: Scope)
    requires SameAccounts(a, b)
    ensures In(a, s) == In(b, s)
  {
  }

  lemma OneActive(db: Db, s: Scope, id: nat)
    requires Inv(db) && id in ActiveIn(db, s)
    ensures ActiveIn(db, s) == {id} && Latest(db, {id}) == id
  {
    assert forall x :: x in ActiveIn(db, s) ==> x == id;
  }

  lemma EnsureKeeps(db: Db, s: Scope, seal: Config -> Config)
    requires Inv(db)
    ensures var r := Ensure(db, s, seal);
            && Inv(r) && SameAccounts(db, r) && OnlyIn(db, r, s)
            && ActiveIn(r, s) == (if In(db, s) == {} then {} else {Pick(db, s)})
            && forall t: Scope :: t != s ==> ActiveIn(r, t) == ActiveIn(db, t)
  {
    hide Inv, SameAccounts, OnlyIn, Save, Put;
    if In(db, s) != {} {
      var id := Pick(db, s);
      if ActiveIn(db, s) != {} {
        OneActive(db, s, id);
      }
      SaveKeeps(db, id, db.rows[id].(active := true));
      var on := Save(db, id, db.rows[id].(active := true));
      assert id in ActiveIn(on, s);
      SaveKeeps(on, id, on.rows[id].(config := seal(on.rows[id].config)));
      var r := Ensure(db, s, seal);
      assert SameAccounts(db, r) by { SameTrans(db, on, r); }
      assert OnlyIn(db, r, s) by { OnlyTrans(db, on, r, s); }
    } else {
      SameRefl(db, s);
    }
  }

  lemma SameTrans(a: Db, b: Db, c: Db)
    requires SameAccounts(a, b) && SameAccounts(b, c)
    ensures SameAccounts(a, c)
  {
  }

  lemma OnlyTrans(a: Db, b: Db, c: Db, s: Scope)
    requires OnlyIn(a, b, s) && OnlyIn(b, c, s)
    ensures OnlyIn(a, c, s)
  {
  }

  lemma SameRefl(a: Db, s: Scope)
    ensures SameAccounts(a, a) && OnlyIn(a, a, s)
  {
  }

  // ----- which account a read settles on -------------------------------------

  ghost function Chosen(db: Db, s: Scope): set<nat> {
    if In(db, s) == {} then {} else {Pick(db, s)}
  }

  lemma LatestIs(db: Db, among: set<nat>, id: nat)
    requires Stamped(db) && IsLatest(db, among, id)
    ensures Latest(db, among) == id
  {
    var x := Latest(db, among);
    assert db.rows[x].updated <= db.rows[id].updated && db.rows[id].updated <= db.rows[x].updated;
  }

  lemma SameChoice(a: Db, b: Db, s: Scope, t: Scope)
    requires Inv(a) && Inv(b) && OnlyIn(a, b, s) && t != s
    ensures In(a, t) == In(b, t) && ActiveIn(a, t) == ActiveIn(b, t) && Chosen(a, t) == Chosen(b, t)
  {
    hide AtMostOneActive, UniqueNames;
    assert In(a, t) == In(b, t) && ActiveIn(a, t) == ActiveIn(b, t);
    if In(a, t) != {} {
      var among := if ActiveIn(a, t) != {} then ActiveIn(a, t) else In(a, t);
      var id := Latest(a, among);
      assert IsLatest(b, among, id);
      LatestIs(b, among, id);
    }
  }

  // Switching the active account off makes it the one written last: a read switches it on again.
  lemma DeactivateIsUndone(db: Db, s: Scope, t: Scope)
    requires Inv(db)
    ensures Chosen(Deactivate(db, s), t) == Chosen(db, t)
  {
    var off := Deactivate(db, s);
    DeactivateKeeps(db, s);
    if t != s {
      SameChoice(db, off, s, t);
    } else if In(db, s) != {} {
      SameIn(db, off, s);
      var id := Pick(db, s);
      hide UniqueNames;
      if ActiveIn(db, s) != {} {
        OneActive(db, s, id);
        assert off.rows[id].updated == db.clock;
      } else {
        assert forall x :: x in In(db, s) ==> off.rows[x] == db.rows[x];
      }
      assert IsLatest(off, In(off, s), id);
      LatestIs(off, In(off, s), id);
    }
  }

  lemma ReadKeeps(db: Db, org: int, seal: Config -> Config)
    requires Inv(db)
    ensures var r := Read(db, org, seal);
            && Inv(r) && SameAccounts(db, r) && OnlyInOrg(db, r, org)
            && ActiveIn(r, Scope(org, GitHub)) == Chosen(db, Scope(org, GitHub))
            && ActiveIn(r, Scope(org, GitLab)) == Chosen(db, Scope(org, GitLab))
  {
    var hub, lab := Scope(org, GitHub), Scope(org, GitLab);
    var mid := Ensure(db, hub, seal);
    var r := Ensure(mid, lab, seal);
    EnsureKeeps(db, hub, seal);
    EnsureKeeps(mid, lab, seal);
    SameTrans(db, mid, r);
    SameChoice(db, mid, hub, lab);
    OrgOf(db, mid, hub);
    OrgOf(mid, r, lab);
    OrgTrans(db, mid, r, org);
  }

  lemma OrgOf(a: Db, b: Db, s: Scope)
    requires OnlyIn(a, b, s)
    ensures OnlyInOrg(a, b, s.org)
  {
  }

  lemma OrgTrans(a: Db, b: Db, c: Db, org: int)
    requires OnlyInOrg(a, b, org) && OnlyInOrg(b, c, org)
    ensures OnlyInOrg(a, c, org)
  {
  }

  lemma GetSettingsKeeps(db: Db, org: int, seal: Config -> Config, slug: Config -> Config)
    requires Inv(db)
    ensures var o := GetSettings(db, org, seal, slug);
            && Inv(o.db) && OnlyInOrg(db, o.db, org) && (o.Failed? <==> org < 1) && (o.Failed? ==> o.db == db)
            && (o.Done? ==>
                  && SameAccounts(db, o.db)
                  && ActiveIn(o.db, Scope(org, GitHub)) == Chosen(db, Scope(org, GitHub))
                  && ActiveIn(o.db, Scope(org, GitLab)) == Chosen(db, Scope(org, GitLab)))
  {
    hide Inv, OnlyIn, OnlyInOrg, SameAccounts, Chosen, Save, Read;
    var hub := Scope(org, GitHub);
    var r := Read(db, org, seal);
    ReadKeeps(db, org, seal);
    if org < 1 {
      SameRefl(db, hub);
      OrgOf(db, db, hub);
    } else if ActiveIn(r, hub) != {} {
      var id := Latest(r, ActiveIn(r, hub));
      OneActive(r, hub, id);
      SaveKeeps(r, id, r.rows[id].(config := slug(r.rows[id].config)));
      var o := GetSettings(db, org, seal, slug).db;
      SameTrans(db, r, o);
      OrgOf(r, o, hub);
      OrgTrans(db, r, o, org);
    }
  }

  // ----- updates -------------------------------------------------------------

  ghost predicate Unused(db: Db, publicId: string) {
    forall id :: id in db.rows ==> db.rows[id].publicId != Some(publicId)
  }

  lemma ObtainKeeps(db: Db, s: Scope, newPublicId: string, seal: Config -> Config)
    requires Inv(db) && Unused(db, newPublicId)
    ensures var r := Obtain(db, s, newPublicId, seal);
            && Inv(r) && OnlyIn(db, r, s)
            && ActiveIn(r, s) == (if In(db, s) == {} then {db.nextId} else Chosen(db, s))
            && (In(db, s) != {} ==> In(r, s) == In(db, s))
  {
    hide Inv, OnlyIn, SameAccounts, Save, Insert;
    if In(db, s) != {} {
      EnsureKeeps(db, s, seal);
      SameIn(db, Ensure(db, s, seal), s);
    } else {
      var a := NewAccount(s, newPublicId, "Default account");
      var on := Insert(db, a);
      InsertKeeps(db, a);
      assert db.nextId in ActiveIn(on, s);
      SaveKeeps(on, db.nextId, on.rows[db.nextId].(config := seal(on.rows[db.nextId].config)));
      OnlyTrans(db, on, Obtain(db, s, newPublicId, seal), s);
    }
  }

  // The account an update without error leaves active.
  ghost function Target(db: Db, s: Scope, q: Request): set<nat> {
    var pid := ComposeText.Trim(q.publicId);
    if pid != "" then Named(db, s.org, pid) * In(db, s)
    else if q.createNew || In(db, s) == {} then {db.nextId}
    else Chosen(db, s)
  }

  lemma NamedOnce(db: Db, org: int, publicId: string, id: nat)
    requires Inv(db) && id in Named(db, org, publicId)
    ensures Named(db, org, publicId) == {id}
  {
    assert forall x :: x in Named(db, org, publicId) ==> x == id;
  }

  lemma ApplyNamed(db: Db, s: Scope, q: Request, id: nat)
    requires Inv(db) && id in In(db, s)
    ensures var o := Apply(Deactivate(db, s), id, db.rows[id].(active := true), q);
            && Inv(o.db) && OnlyIn(db, o.db, s)
            && (o.Failed? ==> o.db == Deactivate(db, s))
            && (o.Done? ==> ActiveIn(o.db, s) == {id})
  {
    hide Inv, OnlyIn, SameAccounts, Save, Deactivate;
    var off := Deactivate(db, s);
    DeactivateKeeps(db, s);
    assert off.rows[id].scope == s && off.rows[id].publicId == db.rows[id].publicId by { hide *; SameRow(db, off, id); }
    var o := Apply(off, id, db.rows[id].(active := true), q);
    if o.Done? {
      SaveKeeps(off, id, Renamed(db.rows[id].(active := true), q).(config := q.edit(db.rows[id].config).value));
      OnlyTrans(db, off, o.db, s);
    }
  }

  lemma SameRow(a: Db, b: Db, id: nat)
    requires SameAccounts(a, b) && id in a.rows
    ensures id in b.rows && b.rows[id].scope == a.rows[id].scope && b.rows[id].publicId == a.rows[id].publicId
  {
  }

  lemma ApplyNew(db: Db, s: Scope, q: Request)
    requires Inv(db) && Unused(db, q.newPublicId)
    ensures var off := Deactivate(db, s);
            var o := Apply(off, off.nextId, NewAccount(s, q.newPublicId, ComposeText.Trim(q.name)), q);
            && Inv(o.db) && OnlyIn(db, o.db, s)
            && (o.Failed? ==> o.db == off)
            && (o.Done? ==> ActiveIn(o.db, s) == {db.nextId})
  {
    hide OnlyIn, Save, Deactivate, Insert, AtMostOneActive, UniqueNames;
    var off := Deactivate(db, s);
    DeactivateKeeps(db, s);
    assert off.nextId == db.nextId && off.nextId !in off.rows;
    var a := NewAccount(s, q.newPublicId, ComposeText.Trim(q.name));
    var o := Apply(off, off.nextId, a, q);
    if o.Done? {
      InsertKeeps(off, Renamed(a, q).(config := q.edit(a.config).value));
      OnlyTrans(db, off, o.db, s);
    }
  }

  lemma UpdateRowKeeps(db: Db, s: Scope, q: Request, seal: Config -> Config)
    requires Inv(db) && Unused(db, q.newPublicId)
    ensures var o := UpdateRow(db, s, q, seal);
            && Inv(o.db) && OnlyIn(db, o.db, s)
            && (o.Done? ==> ActiveIn(o.db, s) == Target(db, s, q) && Target(db, s, q) != {})
            && (o.Failed? ==> o.db in {db, Deactivate(db, s), Obtain(db, s, q.newPublicId, seal)})
  {
    hide Inv, OnlyIn, SameAccounts, Save, Deactivate, Insert, Apply, Unused, Obtain, Chosen, ComposeText.Trim;
    SameRefl(db, s);
    var pid := ComposeText.Trim(q.publicId);
    if pid != "" {
      var found := Named(db, s.org, pid) * In(db, s);
      if found != {} {
        var id := Latest(db, found);
        NamedOnce(db, s.org, pid, id);
        assert found == {id};
        ApplyNamed(db, s, q, id);
      }
    } else if q.createNew {
      if ComposeText.Trim(q.name) != "" {
        ApplyNew(db, s, q);
      }
    } else {
      UpdateWorkingRow(db, s, q, seal);
    }
  }

  lemma UpdateWorkingRow(db: Db, s: Scope, q: Request, seal: Config -> Config)
    requires Inv(db) && Unused(db, q.newPublicId)
    requires ComposeText.Trim(q.publicId) == "" && !q.createNew
    ensures var o := UpdateRow(db, s, q, seal);
            && Inv(o.db) && OnlyIn(db, o.db, s)
            && (o.Done? ==> ActiveIn(o.db, s) == Target(db, s, q) && Target(db, s, q) != {})
            && (o.Failed? ==> o.db == Obtain(db, s, q.newPublicId, seal))
  {
    hide Inv, OnlyIn, SameAccounts, Save, Insert, Unused, Obtain, ComposeText.Trim;
    var ready := Obtain(db, s, q.newPublicId, seal);
    ObtainKeeps(db, s, q.newPublicId, seal);
    var id := Latest(ready, ActiveIn(ready, s));
    OneActive(ready, s, id);
    var o := UpdateRow(db, s, q, seal);
    if o.Done? {
      SaveKeeps(ready, id, Renamed(ready.rows[id], q).(config := q.edit(ready.rows[id].config).value));
      OnlyTrans(db, ready, o.db, s);
    }
  }

  // An update that fails half way, then a read: every scope that had an account ends with the same
  // active account as a read without the update.
  lemma AbortIsUndone(db: Db, s: Scope, q: Request, seal: Config -> Config, t: Scope)
    requires Inv(db) && Unused(db, q.newPublicId)
    requires UpdateRow(db, s, q, seal).Failed? && In(db, t) != {}
    ensures Chosen(UpdateRow(db, s, q, seal).db, t) == Chosen(db, t)
  {
    hide Inv, OnlyIn, SameAccounts, Save, Deactivate, Insert, Unused, Obtain, Chosen, UpdateRow;
    UpdateRowKeeps(db, s, q, seal);
    DeactivateIsUndone(db, s, t);
    var ready := Obtain(db, s, q.newPublicId, seal);
    ObtainKeeps(db, s, q.newPublicId, seal);
    if t != s {
      SameChoice(db, ready, s, t);
    } else {
      ActiveIsChosen(ready, s);
    }
  }

  lemma ActiveIsChosen(db: Db, s: Scope)
    requires Inv(db) && ActiveIn(db, s) != {}
    ensures Chosen(db, s) == ActiveIn(db, s)
  {
    var id := Latest(db, ActiveIn(db, s));
    OneActive(db, s, id);
    assert id in In(db, s);
  }

  // ----- the operations, and every run of them -------------------------------

  lemma UpdateKeeps(db: Db, org: int, q: Request, seal: Config -> Config)
    requires Inv(db) && Unused(db, q.newPublicId)
    ensures var s := Scope(org, ProviderOf(db, org, q));
            var o := UpdateSettings(db, org, q, seal);
            && Inv(o.db) && OnlyInOrg(db, o.db, org)
            && (o.Done? ==> ActiveIn(o.db, s) == Target(db, s, q) && Target(db, s, q) != {})
            && (o.Done? ==> forall p: Provider :: p != s.provider ==> ActiveIn(o.db, Scope(org, p)) == Chosen(db, Scope(org, p)))
            && (o.Failed? ==> forall t: Scope :: In(db, t) != {} ==> Chosen(o.db, t) == Chosen(db, t))
  {
    hide Inv, OnlyIn, OnlyInOrg, SameAccounts, Unused, UpdateRow, ProviderOf, Read, Target, Chosen;
    var s := Scope(org, ProviderOf(db, org, q));
    var u := UpdateRow(db, s, q, seal);
    var o := UpdateSettings(db, org, q, seal);
    SameRefl(db, s);
    OrgOf(db, db, s);
    UpdateRowKeeps(db, s, q, seal);
    OrgOf(db, u.db, s);
    if org < 1 {
    } else if u.Failed? {
      forall t: Scope | In(db, t) != {} ensures Chosen(o.db, t) == Chosen(db, t) {
        AbortIsUndone(db, s, q, seal, t);
      }
    } else {
      ReadKeeps(u.db, org, seal);
      OrgTrans(db, u.db, o.db, org);
      ActiveIsChosen(u.db, s);
      forall p: Provider | p != s.provider ensures ActiveIn(o.db, Scope(org, p)) == Chosen(db, Scope(org, p)) {
        SameChoice(db, u.db, s, Scope(org, p));
      }
    }
  }

  function CreateScope(org: int, q: Request): Scope {
    Scope(org, if q.provider.Some? then q.provider.value else GitLab)
  }

  lemma CreateKeeps(db: Db, org: int, q: Request, seal: Config -> Config, slug: Config -> Config)
    requires Inv(db) && Unused(db, q.newPublicId)
    ensures var s := CreateScope(org, q);
            var o := CreateAccount(db, org, q, seal, slug);
            && Inv(o.db) && OnlyInOrg(db, o.db, org)
            && (o.Done? ==> ActiveIn(o.db, s) == {db.nextId})
            && (o.Done? ==> forall p: Provider :: p != s.provider ==> ActiveIn(o.db, Scope(org, p)) == Chosen(db, Scope(org, p)))
            && (o.Failed? ==> forall t: Scope :: Chosen(o.db, t) == Chosen(db, t))
  {
    hide OnlyIn, OnlyInOrg, AtMostOneActive, UniqueNames, Deactivate, Insert, GetSettings, Chosen, ComposeText.Trim;
    var s := CreateScope(org, q);
    var o := CreateAccount(db, org, q, seal, slug);
    SameRefl(db, s);
    OrgOf(db, db, s);
    var off := Deactivate(db, s);
    DeactivateKeeps(db, s);
    OrgOf(db, off, s);
    forall t: Scope ensures Chosen(off, t) == Chosen(db, t) {
      DeactivateIsUndone(db, s, t);
    }
    if org >= 1 && ComposeText.Trim(q.name) != "" && q.edit(EMPTY).Some? {
      assert off.nextId == db.nextId;
      var a := NewAccount(s, q.newPublicId, ComposeText.Trim(q.name)).(config := q.edit(EMPTY).value);
      var on := Insert(off, a);
      InsertKeeps(off, a);
      hide SameAccounts, Stamped;
      OnlyTrans(db, off, on, s);
      OrgOf(db, on, s);
      GetSettingsKeeps(on, org, seal, slug);
      OrgTrans(db, on, o.db, org);
      ActiveIsChosen(on, s);
      forall p: Provider | p != s.provider ensures ActiveIn(o.db, Scope(org, p)) == Chosen(db, Scope(org, p)) {
        SameChoice(off, on, s, Scope(org, p));
      }
    }
  }

  lemma DeleteKeeps(db: Db, id: nat)
    requires Inv(db) && id in db.rows
    ensures Inv(Delete(db, id)) && OnlyIn(db, Delete(db, id), db.rows[id].scope)
  {
  }

  lemma RemoveKeeps(db: Db, id: nat)
    requires Inv(db) && id in db.rows
    ensures var s := db.rows[id].scope;
            && Inv(Remove(db, id)) && OnlyIn(db, Remove(db, id), s) && Remove(db, id).rows.Keys == db.rows.Keys - {id}
            && ActiveIn(Remove(db, id), s) == Chosen(Delete(db, id), s)
  {
    hide Inv, OnlyIn, SameAccounts, Save;
    var s, gone := db.rows[id].scope, Delete(db, id);
    DeleteKeeps(db, id);
    if ActiveIn(gone, s) == {} && In(gone, s) != {} {
      var next := Latest(gone, In(gone, s));
      SaveKeeps(gone, next, gone.rows[next].(active := true));
      OnlyTrans(db, gone, Remove(db, id), s);
      assert Remove(db, id).rows.Keys == gone.rows.Keys by { hide *; SameKeys(gone, Remove(db, id)); }
    } else if ActiveIn(gone, s) != {} {
      ActiveIsChosen(gone, s);
    }
  }

  lemma SameKeys(a: Db, b: Db)
    requires SameAccounts(a, b)
    ensures a.rows.Keys == b.rows.Keys
  {
  }

  ghost predicate AsIfNeverThere(before: Db, after: Db, org: int, id: nat) {
    && after.rows.Keys == before.rows.Keys - {id}
    && forall p: Provider :: ActiveIn(after, Scope(org, p)) == Chosen(Delete(before, id), Scope(org, p))
  }

  // After a removal each scope has the active account it would have if the removed one had never
  // been there.
  lemma RemoveAccountKeeps(db: Db, org: int, publicId: string, seal: Config -> Config, slug: Config -> Config)
    requires Inv(db)
    ensures var o := RemoveAccount(db, org, publicId, seal, slug);
            && Inv(o.db) && OnlyInOrg(db, o.db, org) && (o.Failed? ==> o.db == db)
            && (o.Done? ==> exists id :: id in Named(db, org, ComposeText.Trim(publicId)) && AsIfNeverThere(db, o.db, org, id))
  {
    hide Inv, OnlyIn, OnlyInOrg, SameAccounts, Remove, GetSettings, Chosen, ComposeText.Trim;
    var pid := ComposeText.Trim(publicId);
    var o := RemoveAccount(db, org, publicId, seal, slug);
    SameRefl(db, Scope(org, GitHub));
    OrgOf(db, db, Scope(org, GitHub));
    if org >= 1 && pid != "" && Named(db, org, pid) != {} {
      var id := Latest(db, Named(db, org, pid));
      var s, gone, r := db.rows[id].scope, Delete(db, id), Remove(db, id);
      RemoveKeeps(db, id);
      DeleteKeeps(db, id);
      OrgOf(db, r, s);
      GetSettingsKeeps(r, org, seal, slug);
      OrgTrans(db, r, o.db, org);
      SameKeys(r, o.db);
      forall p: Provider ensures ActiveIn(o.db, Scope(org, p)) == Chosen(gone, Scope(org, p)) {
        if p == s.provider {
          RemoveChoice(db, id);
        } else {
          SameChoice(db, r, s, Scope(org, p));
          SameChoice(db, gone, s, Scope(org, p));
        }
      }
    }
  }

  lemma RemoveChoice(db: Db, id: nat)
    requires Inv(db) && id in db.rows
    ensures Chosen(Remove(db, id), db.rows[id].scope) == Chosen(Delete(db, id), db.rows[id].scope)
  {
    hide Inv, OnlyIn, Remove;
    var s := db.rows[id].scope;
    RemoveKeeps(db, id);
    if ActiveIn(Remove(db, id), s) != {} {
      ActiveIsChosen(Remove(db, id), s);
    } else {
      NoneLeft(db, id);
    }
  }

  lemma NoneLeft(db: Db, id: nat)
    requires Inv(db) && id in db.rows && ActiveIn(Remove(db, id), db.rows[id].scope) == {}
    ensures In(Remove(db, id), db.rows[id].scope) == {}
  {
    hide Inv, OnlyIn, SameAccounts, Save;
    RemoveKeeps(db, id);
  }

  datatype Op =
    | Update(org: int, q: Request)
    | Create(org: int, q: Request)
    | RemoveOp(org: int, publicId: string)
    | Get(org: int)
    | Use(s: Scope, newPublicId: string)

  // How secrets are sealed, and what GitHub answers about a missing slug.
  datatype Env = Env(seal: Config -> Config, slug: Config -> Config)

  ghost function Step(db: Db, op: Op, env: Env): Outcome {
    match op
    case Update(org, q) => UpdateSettings(db, org, q, env.seal)
    case Create(org, q) => CreateAccount(db, org, q, env.seal, env.slug)
    case RemoveOp(org, publicId) => RemoveAccount(db, org, publicId, env.seal, env.slug)
    case Get(org) => GetSettings(db, org, env.seal, env.slug)
    case Use(s, newPublicId) => if s.org < 1 then Failed(db, Internal) else Done(Obtain(db, s, newPublicId, env.seal))
  }

  ghost function Run(db: Db, ops: seq<Op>, env: Env): Db
    decreases |ops|
  {
    if ops == [] then db else Run(Step(db, ops[0], env).db, ops[1..], env)
  }

  // The random public id of a new account is not in use yet.
  ghost predicate FreshId(db: Db, op: Op) {
    match op
    case Update(_, q) => Unused(db, q.newPublicId)
    case Create(_, q) => Unused(db, q.newPublicId)
    case RemoveOp(_, _) => true
    case Get(_) => true
    case Use(_, newPublicId) => Unused(db, newPublicId)
  }

  ghost predicate FreshIds(db: Db, ops: seq<Op>, env: Env)
    decreases |ops|
  {
    ops == [] || (FreshId(db, ops[0]) && FreshIds(Step(db, ops[0], env).db, ops[1..], env))
  }

  function OrgOfOp(op: Op): int {
    if op.Use? then op.s.org else op.org
  }

  // The scopes an operation reports on when it returns.
  ghost predicate Reports(op: Op, s: Scope) {
    if op.Use? then s == op.s else s.org == op.org
  }

  // A scope with accounts has exactly one active.
  ghost predicate ExactlyOne(db: Db, s: Scope) {
    if In(db, s) == {} then ActiveIn(db, s) == {} else exists id :: ActiveIn(db, s) == {id}
  }

  lemma StepKeeps(db: Db, op: Op, env: Env)
    requires Inv(db) && FreshId(db, op)
    ensures Inv(Step(db, op, env).db) && OnlyInOrg(db, Step(db, op, env).db, OrgOfOp(op))
  {
    hide Inv, OnlyInOrg, OnlyIn, SameAccounts, UpdateSettings, CreateAccount, RemoveAccount, GetSettings, Obtain;
    match op
    case Update(org, q) => UpdateKeeps(db, org, q, env.seal);
    case Create(org, q) => CreateKeeps(db, org, q, env.seal, env.slug);
    case RemoveOp(org, publicId) => RemoveAccountKeeps(db, org, publicId, env.seal, env.slug);
    case Get(org) => GetSettingsKeeps(db, org, env.seal, env.slug);
    case Use(s, newPublicId) =>
      SameRefl(db, s);
      OrgOf(db, db, s);
      ObtainKeeps(db, s, newPublicId, env.seal);
      OrgOf(db, Obtain(db, s, newPublicId, env.seal), s);
  }

  // In every reachable state, also after operations that failed half way.
  lemma {:induction false} RunKeeps(db: Db, ops: seq<Op>, env: Env)
    requires Inv(db) && FreshIds(db, ops, env)
    ensures Inv(Run(db, ops, env))
    decreases |ops|
  {
    hide Inv, FreshId, Step;
    if ops != [] {
      StepKeeps(db, ops[0], env);
      RunKeeps(Step(db, ops[0], env).db, ops[1..], env);
    }
  }

  lemma EveryRun(ops: seq<Op>, env: Env)
    requires FreshIds(Db(map[], 0, 0), ops, env)
    ensures AtMostOneActive(Run(Db(map[], 0, 0), ops, env))
  {
    hide Run, FreshIds;
    RunKeeps(Db(map[], 0, 0), ops, env);
  }

  lemma SomeActive(db: Db, s: Scope)
    requires Inv(db) && (In(db, s) != {} ==> ActiveIn(db, s) != {})
    ensures ExactlyOne(db, s)
  {
    if id :| id in ActiveIn(db, s) {
      OneActive(db, s, id);
      assert id in In(db, s);
    } else {
      assert ActiveIn(db, s) == {};
    }
  }

  // A read leaves an active account in both scopes of the organization.
  lemma ReadSettles(db: Db, org: int, seal: Config -> Config, s: Scope)
    requires Inv(db) && s.org == org
    ensures In(Read(db, org, seal), s) != {} ==> ActiveIn(Read(db, org, seal), s) != {}
  {
    hide Inv, Read, SameAccounts, OnlyInOrg, Pick;
    ReadKeeps(db, org, seal);
    SameIn(db, Read(db, org, seal), s);
    assert s.provider == GitHub || s.provider == GitLab;
  }

  lemma GetSettles(db: Db, org: int, seal: Config -> Config, slug: Config -> Config, s: Scope)
    requires Inv(db) && s.org == org && org >= 1
    ensures var r := GetSettings(db, org, seal, slug).db; In(r, s) != {} ==> ActiveIn(r, s) != {}
  {
    hide Inv, GetSettings, SameAccounts, OnlyInOrg, Pick;
    GetSettingsKeeps(db, org, seal, slug);
    SameIn(db, GetSettings(db, org, seal, slug).db, s);
    assert s.provider == GitHub || s.provider == GitLab;
  }

  // On normal return exactly one account of each reported scope is active, if it has any.
  lemma NormalReturn(db: Db, op: Op, env: Env, s: Scope)
    requires Inv(db) && FreshId(db, op) && Reports(op, s)
    requires Step(db, op, env).Done?
    ensures ExactlyOne(Step(db, op, env).db, s)
  {
    hide Inv, UpdateRow, GetSettings, Obtain, OnlyInOrg, OnlyIn, SameAccounts, ProviderOf, Read, Deactivate, Insert, Remove, ExactlyOne, ComposeText.Trim;
    var r := Step(db, op, env).db;
    StepKeeps(db, op, env);
    match op {
      case Update(org, q) =>
        var t := Scope(org, ProviderOf(db, org, q));
        UpdateRowKeeps(db, t, q, env.seal);
        ReadSettles(UpdateRow(db, t, q, env.seal).db, org, env.seal, s);
      case Create(org, q) =>
        CreateMiddle(db, org, q, env);
        GetSettles(Insert(Deactivate(db, CreateScope(org, q)), NewAccount(CreateScope(org, q), q.newPublicId, ComposeText.Trim(q.name)).(config := q.edit(EMPTY).value)), org, env.seal, env.slug, s);
      case RemoveOp(org, publicId) =>
        var id := Latest(db, Named(db, org, ComposeText.Trim(publicId)));
        RemoveKeeps(db, id);
        GetSettles(Remove(db, id), org, env.seal, env.slug, s);
      case Get(org) =>
        GetSettingsKeeps(db, org, env.seal, env.slug);
        GetSettles(db, org, env.seal, env.slug, s);
      case Use(t, newPublicId) => ObtainKeeps(db, s, newPublicId, env.seal);
    }
    SomeActive(r, s);
  }

  lemma CreateMiddle(db: Db, org: int, q: Request, env: Env)
    requires Inv(db) && Unused(db, q.newPublicId) && CreateAccount(db, org, q, env.seal, env.slug).Done?
    ensures var s := CreateScope(org, q);
            Inv(Insert(Deactivate(db, s), NewAccount(s, q.newPublicId, ComposeText.Trim(q.name)).(config := q.edit(EMPTY).value)))
  {
    hide AtMostOneActive, Stamped, UniqueNames, OnlyIn, Insert, Deactivate, GetSettings, ComposeText.Trim;
    var s := CreateScope(org, q);
    DeactivateKeeps(db, s);
    InsertKeeps(Deactivate(db, s), NewAccount(s, q.newPublicId, ComposeText.Trim(q.name)).(config := q.edit(EMPTY).value));
  }
}

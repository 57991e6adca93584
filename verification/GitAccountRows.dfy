// What the stored accounts hold after an operation: which fields an update or a creation writes, that
// no other account loses its name or fields, and when an operation is refused.
module GitAccountRows {
  import opened Wrappers
  import opened GitAccounts
  import ComposeText

  // Same identity, same name.
  predicate SameBut(a: Account, b: Account) {
    a.scope == b.scope && a.publicId == b.publicId && a.name == b.name
  }

  // No account but `id` comes or goes; the others keep their name, and their fields up to sealing.
  ghost predicate OthersKept(before: Db, after: Db, id: nat, seal: Config -> Config) {
    && after.rows.Keys - {id} == before.rows.Keys - {id}
    && forall x :: x in before.rows && x != id && x in after.rows ==>
         && SameBut(before.rows[x], after.rows[x])
         && after.rows[x].config in {before.rows[x].config, seal(before.rows[x].config)}
  }

  ghost predicate OthersSame(before: Db, after: Db, id: nat) {
    && after.rows.Keys - {id} == before.rows.Keys - {id}
    && forall x :: x in before.rows && x != id && x in after.rows ==>
         SameBut(before.rows[x], after.rows[x]) && after.rows[x].config == before.rows[x].config
  }

  // ----- single writes -------------------------------------------------------

  lemma SaveRows(db: Db, id: nat, a: Account)
    requires id in db.rows
    ensures var r := Save(db, id, a);
            && r.rows.Keys == db.rows.Keys && r.nextId == db.nextId
            && r.rows[id].(updated := 0) == a.(updated := 0)
            && forall x :: x in db.rows && x != id ==> r.rows[x] == db.rows[x]
  {
  }

  lemma InsertRows(db: Db, a: Account)
    requires db.nextId !in db.rows
    ensures var r := Insert(db, a);
            && r.rows.Keys == db.rows.Keys + {db.nextId}
            && r.rows[db.nextId].(updated := 0) == a.(updated := 0)
            && forall x :: x in db.rows ==> r.rows[x] == db.rows[x]
  {
  }

  lemma DeactivateRows(db: Db, s: Scope)
    ensures var r := Deactivate(db, s);
            && r.rows.Keys == db.rows.Keys && r.nextId == db.nextId
            && forall x :: x in db.rows ==> SameBut(db.rows[x], r.rows[x]) && r.rows[x].config == db.rows[x].config
  {
  }

  lemma ResealRows(db: Db, id: nat, seal: Config -> Config)
    requires id in db.rows
    ensures var r := Reseal(db, id, seal);
            && r.rows.Keys == db.rows.Keys && SameBut(db.rows[id], r.rows[id]) && r.rows[id].active == db.rows[id].active
            && r.rows[id].config == seal(db.rows[id].config)
            && forall x :: x in db.rows && x != id ==> r.rows[x] == db.rows[x]
  {
    hide Save;
    SaveRows(db, id, db.rows[id].(config := seal(db.rows[id].config)));
  }

  // Only the account the scope works with is sealed.
  lemma EnsureRows(db: Db, s: Scope, seal: Config -> Config)
    ensures var r := Ensure(db, s, seal);
            && r.rows.Keys == db.rows.Keys
            && forall x :: x in db.rows ==>
                 if In(db, s) != {} && x == Pick(db, s) then SameBut(db.rows[x], r.rows[x]) && r.rows[x].config == seal(db.rows[x].config)
                 else r.rows[x] == db.rows[x]
  {
    hide Save, Reseal, Pick;
    if In(db, s) != {} {
      PickIn(db, s);
      var id := Pick(db, s);
      SaveRows(db, id, db.rows[id].(active := true));
      ResealRows(Save(db, id, db.rows[id].(active := true)), id, seal);
    }
  }

  lemma PickIn(db: Db, s: Scope)
    requires In(db, s) != {}
    ensures Pick(db, s) in In(db, s)
  {
  }

  // The working account of a scope: its active one, else the one written last.
  ghost predicate Working(db: Db, s: Scope, id: nat) {
    && id in db.rows && db.rows[id].scope == s
    && (db.rows[id].active
        || forall x :: x in db.rows && db.rows[x].scope == s ==> !db.rows[x].active && db.rows[x].updated <= db.rows[id].updated)
  }

  lemma PickIsWorking(db: Db, s: Scope)
    requires In(db, s) != {}
    ensures Working(db, s, Pick(db, s))
  {
    var id := Pick(db, s);
    if ActiveIn(db, s) != {} {
      assert id in ActiveIn(db, s);
    } else {
      assert IsLatest(db, In(db, s), id);
      assert forall x :: x in db.rows && db.rows[x].scope == s ==> x in In(db, s) && x !in ActiveIn(db, s);
    }
  }

  // Reading both scopes seals the active account of each.
  lemma ReadRows(db: Db, org: int, seal: Config -> Config, id: nat)
    requires Inv(db) && id in db.rows && db.rows[id].scope.org == org && db.rows[id].active
    ensures var r := Read(db, org, seal);
            && r.rows.Keys == db.rows.Keys
            && SameBut(db.rows[id], r.rows[id]) && r.rows[id].active && r.rows[id].config == seal(db.rows[id].config)
            && OthersKept(db, r, id, seal)
  {
    hide Ensure, Inv, SameAccounts, OnlyIn, OnlyInOrg, Pick;
    var hub, lab, s := Scope(org, GitHub), Scope(org, GitLab), db.rows[id].scope;
    var mid := Ensure(db, hub, seal);
    EnsureRows(db, hub, seal);
    EnsureKeeps(db, hub, seal);
    EnsureRows(mid, lab, seal);
    EnsureKeeps(mid, lab, seal);
    assert s == hub || s == lab by { assert s.provider == GitHub || s.provider == GitLab; }
    ActiveIsPick(db, s, id);
    if In(db, hub) != {} { PickIn(db, hub); }
    if In(mid, lab) != {} { PickIn(mid, lab); }
    if s == lab {
      assert mid.rows[id] == db.rows[id];
      ActiveIsPick(mid, s, id);
    } else {
      assert id in ActiveIn(mid, hub);
      assert mid.rows[id].scope == hub;
    }
    forall x | x in db.rows && x != id
      ensures SameBut(db.rows[x], Read(db, org, seal).rows[x]) && Read(db, org, seal).rows[x].config in {db.rows[x].config, seal(db.rows[x].config)}
    {
      if In(mid, lab) != {} && x == Pick(mid, lab) {
        assert mid.rows[x].scope == lab && db.rows[x].scope == lab;
        assert mid.rows[x] == db.rows[x];
      }
    }
  }

  lemma ActiveIsPick(db: Db, s: Scope, id: nat)
    requires Inv(db) && id in db.rows && db.rows[id].scope == s && db.rows[id].active
    ensures In(db, s) != {} && Pick(db, s) == id
  {
    assert id in ActiveIn(db, s) && id in In(db, s);
    OneActive(db, s, id);
  }

  // ----- updates -------------------------------------------------------------

  // The provider an update is about: that of the account it names, unless it touches GitHub fields;
  // otherwise the one it asks for, or the one its fields belong to.
  ghost predicate Concerns(db: Db, org: int, q: Request, p: Provider) {
    var pid := ComposeText.Trim(q.publicId);
    if !q.touchesGithub && pid != "" && exists id :: id in db.rows && db.rows[id].scope.org == org && db.rows[id].publicId == Some(pid) then
      exists id :: id in db.rows && db.rows[id].scope == Scope(org, p) && db.rows[id].publicId == Some(pid)
    else if q.provider.Some? then p == q.provider.value
    else if q.touchesGithub then p == GitHub
    else p == GitLab
  }

  lemma ProviderConcerned(db: Db, org: int, q: Request)
    ensures Concerns(db, org, q, ProviderOf(db, org, q))
  {
    hide ComposeText.Trim;
    var pid := ComposeText.Trim(q.publicId);
    if !q.touchesGithub && pid != "" {
      assert (exists id :: id in db.rows && db.rows[id].scope.org == org && db.rows[id].publicId == Some(pid)) ==> Named(db, org, pid) != {};
      if Named(db, org, pid) != {} {
        var id := Latest(db, Named(db, org, pid));
        assert IsLatest(db, Named(db, org, pid), id);
        assert id in Named(db, org, pid);
        assert db.rows[id].scope == Scope(org, db.rows[id].scope.provider);
      }
    }
  }

  // The account an update works on, with the name and the fields it starts from.
  ghost predicate StartsFrom(db: Db, s: Scope, q: Request, seal: Config -> Config, id: nat, name: string, config: Config) {
    var pid := ComposeText.Trim(q.publicId);
    if pid != "" then
      id in db.rows && db.rows[id].scope == s && db.rows[id].publicId == Some(pid) && name == db.rows[id].name && config == db.rows[id].config
    else if q.createNew then id == db.nextId && name == ComposeText.Trim(q.name) && config == ""
    else if In(db, s) == {} then id == db.nextId && name == "Default account" && config == seal("")
    else Working(db, s, id) && name == db.rows[id].name && config == seal(db.rows[id].config)
  }

  // `row` is the account with the new fields, and the new name if one was given.
  predicate Edited(row: Account, s: Scope, q: Request, name: string, config: Config) {
    && row.scope == s && row.active && row.config == config
    && row.name == if ComposeText.Trim(q.name) != "" then ComposeText.Trim(q.name) else name
  }

  ghost predicate RowStored(db: Db, after: Db, s: Scope, q: Request, seal: Config -> Config, id: nat, name: string, config: Config) {
    && StartsFrom(db, s, q, seal, id, name, config) && q.edit(config).Some?
    && id in after.rows && Edited(after.rows[id], s, q, name, q.edit(config).value)
    && after.rows[id].publicId == (if id in db.rows then db.rows[id].publicId else Some(q.newPublicId))
    && OthersSame(db, after, id)
  }

  lemma ApplySaves(db: Db, id: nat, a: Account, q: Request, s: Scope)
    requires id in db.rows && a.scope == s && a.active && q.edit(a.config).Some?
    ensures var o := Apply(db, id, a, q);
            && o.Done? && o.db.rows.Keys == db.rows.Keys
            && Edited(o.db.rows[id], s, q, a.name, q.edit(a.config).value) && o.db.rows[id].publicId == a.publicId
            && forall x :: x in db.rows && x != id ==> o.db.rows[x] == db.rows[x]
  {
    hide Save, ComposeText.Trim;
    SaveRows(db, id, Renamed(a, q).(config := q.edit(a.config).value));
  }

  lemma ApplyInserts(db: Db, a: Account, q: Request, s: Scope)
    requires db.nextId !in db.rows && a.scope == s && a.active && q.edit(a.config).Some?
    ensures var o := Apply(db, db.nextId, a, q);
            && o.Done? && o.db.rows.Keys == db.rows.Keys + {db.nextId}
            && Edited(o.db.rows[db.nextId], s, q, a.name, q.edit(a.config).value) && o.db.rows[db.nextId].publicId == a.publicId
            && forall x :: x in db.rows ==> o.db.rows[x] == db.rows[x]
  {
    hide Insert, ComposeText.Trim;
    InsertRows(db, Renamed(a, q).(config := q.edit(a.config).value));
  }

  lemma NamedStored(db: Db, s: Scope, q: Request, seal: Config -> Config)
    requires Inv(db) && ComposeText.Trim(q.publicId) != ""
    requires UpdateRow(db, s, q, seal).Done?
    ensures exists id: nat, name: string, config: Config :: RowStored(db, UpdateRow(db, s, q, seal).db, s, q, seal, id, name, config)
  {
    hide Inv, Apply, Deactivate, ComposeText.Trim, Edited;
    var found := Named(db, s.org, ComposeText.Trim(q.publicId)) * In(db, s);
    var id := Latest(db, found);
    assert id in found;
    DeactivateRows(db, s);
    ApplyDone(Deactivate(db, s), id, db.rows[id].(active := true), q);
    ApplySaves(Deactivate(db, s), id, db.rows[id].(active := true), q, s);
    assert RowStored(db, UpdateRow(db, s, q, seal).db, s, q, seal, id, db.rows[id].name, db.rows[id].config);
  }

  lemma ApplyDone(db: Db, id: nat, a: Account, q: Request)
    requires id in db.rows || id == db.nextId
    ensures Apply(db, id, a, q).Done? <==> q.edit(a.config).Some?
    ensures Apply(db, id, a, q).Failed? ==> Apply(db, id, a, q).failure == BadRequest
  {
  }

  lemma NewStored(db: Db, s: Scope, q: Request, seal: Config -> Config)
    requires Inv(db) && ComposeText.Trim(q.publicId) == "" && q.createNew
    requires UpdateRow(db, s, q, seal).Done?
    ensures exists id: nat, name: string, config: Config :: RowStored(db, UpdateRow(db, s, q, seal).db, s, q, seal, id, name, config)
  {
    hide AtMostOneActive, UniqueNames, Apply, Deactivate, ComposeText.Trim, Edited;
    var off := Deactivate(db, s);
    var a := NewAccount(s, q.newPublicId, ComposeText.Trim(q.name));
    DeactivateRows(db, s);
    ApplyDone(off, off.nextId, a, q);
    ApplyInserts(off, a, q, s);
    assert RowStored(db, UpdateRow(db, s, q, seal).db, s, q, seal, db.nextId, ComposeText.Trim(q.name), EMPTY);
  }

  lemma ObtainRows(db: Db, s: Scope, newPublicId: string, seal: Config -> Config)
    requires Inv(db)
    ensures var r := Obtain(db, s, newPublicId, seal);
            var id := if In(db, s) == {} then db.nextId else Pick(db, s);
            && id in r.rows && r.rows[id].active && r.rows[id].scope == s
            && OthersSame(db, r, id)
            && (if id in db.rows then In(db, s) != {} && SameBut(db.rows[id], r.rows[id]) && r.rows[id].config == seal(db.rows[id].config)
                else In(db, s) == {} && r.rows[id].publicId == Some(newPublicId) && r.rows[id].name == "Default account" && r.rows[id].config == seal(""))
  {
    hide AtMostOneActive, UniqueNames, Ensure, Insert, Reseal, Pick, SameAccounts, OnlyIn;
    if In(db, s) != {} {
      EnsureRows(db, s, seal);
      PickIn(db, s);
      EnsureKeeps(db, s, seal);
      assert Pick(db, s) in ActiveIn(Ensure(db, s, seal), s);
    } else {
      var a := Account(s, Some(newPublicId), "Default account", EMPTY, true, 0);
      InsertRows(db, a);
      ResealRows(Insert(db, a), db.nextId, seal);
    }
  }

  lemma WorkingStored(db: Db, s: Scope, q: Request, seal: Config -> Config)
    requires Inv(db) && Unused(db, q.newPublicId) && ComposeText.Trim(q.publicId) == "" && !q.createNew
    requires UpdateRow(db, s, q, seal).Done?
    ensures exists id: nat, name: string, config: Config :: RowStored(db, UpdateRow(db, s, q, seal).db, s, q, seal, id, name, config)
  {
    hide Inv, Apply, Obtain, Unused, Pick, OnlyIn, ComposeText.Trim, Edited;
    var ready := Obtain(db, s, q.newPublicId, seal);
    var id := if In(db, s) == {} then db.nextId else Pick(db, s);
    ObtainRows(db, s, q.newPublicId, seal);
    ObtainKeeps(db, s, q.newPublicId, seal);
    OneActive(ready, s, id);
    ApplyDone(ready, id, ready.rows[id], q);
    ApplySaves(ready, id, ready.rows[id], q, s);
    if In(db, s) != {} {
      PickIsWorking(db, s);
    }
    assert RowStored(db, UpdateRow(db, s, q, seal).db, s, q, seal, id, ready.rows[id].name, ready.rows[id].config);
  }

  // After an update that succeeds, the account it works on holds the edited fields, sealed, and the
  // trimmed new name if one was given; every other account keeps its name, and its fields up to sealing.
  lemma UpdateStores(db: Db, org: int, q: Request, seal: Config -> Config)
    requires Inv(db) && Unused(db, q.newPublicId) && UpdateSettings(db, org, q, seal).Done?
    ensures exists p: Provider, id: nat, name: string, config: Config ::
              && Concerns(db, org, q, p)
              && SealedStored(db, UpdateSettings(db, org, q, seal).db, Scope(org, p), q, seal, id, name, config)
  {
    hide Inv, UpdateRow, Unused, ProviderOf, Read, StartsFrom, OnlyIn, Edited, Concerns, ComposeText.Trim;
    var p := ProviderOf(db, org, q);
    var s := Scope(org, p);
    ProviderConcerned(db, org, q);
    UpdateRowStored(db, s, q, seal);
    UpdateRowKeeps(db, s, q, seal);
    var u := UpdateRow(db, s, q, seal).db;
    var id: nat, name: string, config: Config :| RowStored(db, u, s, q, seal, id, name, config);
    EditedIs(u.rows[id], s, q, name, q.edit(config).value);
    ReadRows(u, org, seal, id);
    SealedRead(db, u, Read(u, org, seal), s, q, seal, id, name, config);
  }

  ghost predicate SealedStored(db: Db, after: Db, s: Scope, q: Request, seal: Config -> Config, id: nat, name: string, config: Config) {
    && StartsFrom(db, s, q, seal, id, name, config) && q.edit(config).Some?
    && id in after.rows && Edited(after.rows[id], s, q, name, seal(q.edit(config).value))
    && after.rows[id].publicId == (if id in db.rows then db.rows[id].publicId else Some(q.newPublicId))
    && OthersKept(db, after, id, seal)
  }

  lemma EditedIs(row: Account, s: Scope, q: Request, name: string, config: Config)
    requires Edited(row, s, q, name, config)
    ensures row.scope == s && row.active
  {
  }

  lemma UpdateRowStored(db: Db, s: Scope, q: Request, seal: Config -> Config)
    requires Inv(db) && Unused(db, q.newPublicId) && UpdateRow(db, s, q, seal).Done?
    ensures exists id: nat, name: string, config: Config :: RowStored(db, UpdateRow(db, s, q, seal).db, s, q, seal, id, name, config)
  {
    hide Inv, UpdateRow, Unused, RowStored, ComposeText.Trim;
    if ComposeText.Trim(q.publicId) != "" {
      NamedStored(db, s, q, seal);
    } else if q.createNew {
      NewStored(db, s, q, seal);
    } else {
      WorkingStored(db, s, q, seal);
    }
  }

  lemma SealedRead(db: Db, u: Db, r: Db, s: Scope, q: Request, seal: Config -> Config, id: nat, name: string, config: Config)
    requires RowStored(db, u, s, q, seal, id, name, config) && id in r.rows && r.rows.Keys == u.rows.Keys
    requires SameBut(u.rows[id], r.rows[id]) && r.rows[id].active && r.rows[id].config == seal(u.rows[id].config)
    requires OthersKept(u, r, id, seal)
    ensures SealedStored(db, r, s, q, seal, id, name, config)
  {
    hide StartsFrom, ComposeText.Trim;
  }

  // ----- refused updates -----------------------------------------------------

  // No such account, a new one without a name, or fields that cannot be applied.
  ghost predicate Refused(db: Db, s: Scope, q: Request, seal: Config -> Config) {
    var pid := ComposeText.Trim(q.publicId);
    || (pid != "" && forall id :: id in db.rows && db.rows[id].scope == s ==> db.rows[id].publicId != Some(pid))
    || (pid == "" && q.createNew && ComposeText.Trim(q.name) == "")
    || exists id: nat, name: string, config: Config :: StartsFrom(db, s, q, seal, id, name, config) && q.edit(config).None?
  }

  lemma WorkingIsPick(db: Db, s: Scope, id: nat)
    requires Inv(db) && Working(db, s, id)
    ensures In(db, s) != {} && Pick(db, s) == id
  {
    hide UniqueNames;
    assert id in In(db, s);
    if db.rows[id].active {
      ActiveIsPick(db, s, id);
    } else {
      assert ActiveIn(db, s) == {};
      assert IsLatest(db, In(db, s), id);
      LatestIs(db, In(db, s), id);
    }
  }

  lemma RowRefused(db: Db, s: Scope, q: Request, seal: Config -> Config)
    requires Inv(db) && Unused(db, q.newPublicId)
    ensures var o := UpdateRow(db, s, q, seal);
            (o.Failed? <==> Refused(db, s, q, seal)) && (o.Failed? ==> o.failure == BadRequest)
  {
    hide Inv, Apply, Deactivate, Obtain, Unused, Pick, OnlyIn, Chosen, ComposeText.Trim;
    if ComposeText.Trim(q.publicId) != "" {
      NamedRefused(db, s, q, seal);
    } else if q.createNew {
      var off := Deactivate(db, s);
      ApplyDone(off, off.nextId, NewAccount(s, q.newPublicId, ComposeText.Trim(q.name)), q);
      assert StartsFrom(db, s, q, seal, db.nextId, ComposeText.Trim(q.name), EMPTY);
    } else {
      WorkingRefused(db, s, q, seal);
    }
  }

  lemma NamedRefused(db: Db, s: Scope, q: Request, seal: Config -> Config)
    requires Inv(db) && ComposeText.Trim(q.publicId) != ""
    ensures var o := UpdateRow(db, s, q, seal);
            (o.Failed? <==> Refused(db, s, q, seal)) && (o.Failed? ==> o.failure == BadRequest)
  {
    hide Inv, Apply, Deactivate, ComposeText.Trim;
    var pid := ComposeText.Trim(q.publicId);
    var found := Named(db, s.org, pid) * In(db, s);
    if found != {} {
      var id := Latest(db, found);
      assert id in found;
      NamedOnce(db, s.org, pid, id);
      DeactivateRows(db, s);
      ApplyDone(Deactivate(db, s), id, db.rows[id].(active := true), q);
      assert StartsFrom(db, s, q, seal, id, db.rows[id].name, db.rows[id].config);
      forall x: nat, name: string, config: Config | StartsFrom(db, s, q, seal, x, name, config) ensures config == db.rows[id].config {
        assert x in Named(db, s.org, pid);
      }
    } else {
      forall x | x in db.rows && db.rows[x].scope == s ensures db.rows[x].publicId != Some(pid) {
        assert x !in found;
      }
    }
  }

  lemma WorkingRefused(db: Db, s: Scope, q: Request, seal: Config -> Config)
    requires Inv(db) && Unused(db, q.newPublicId) && ComposeText.Trim(q.publicId) == "" && !q.createNew
    ensures var o := UpdateRow(db, s, q, seal);
            (o.Failed? <==> Refused(db, s, q, seal)) && (o.Failed? ==> o.failure == BadRequest)
  {
    hide Inv, Apply, Obtain, Unused, Pick, OnlyIn, Chosen, Working, ComposeText.Trim;
    var ready := Obtain(db, s, q.newPublicId, seal);
    var id := if In(db, s) == {} then db.nextId else Pick(db, s);
    ObtainRows(db, s, q.newPublicId, seal);
    ObtainKeeps(db, s, q.newPublicId, seal);
    OneActive(ready, s, id);
    ApplyDone(ready, id, ready.rows[id], q);
    if In(db, s) != {} {
      PickIsWorking(db, s);
    }
    assert StartsFrom(db, s, q, seal, id, ready.rows[id].name, ready.rows[id].config);
    forall x: nat, name: string, config: Config | StartsFrom(db, s, q, seal, x, name, config) ensures config == ready.rows[id].config {
      if In(db, s) != {} {
        WorkingIsPick(db, s, x);
      }
    }
  }

  lemma OneConcern(db: Db, org: int, q: Request, a: Provider, b: Provider)
    requires Inv(db) && Concerns(db, org, q, a) && Concerns(db, org, q, b)
    ensures a == b
  {
    hide AtMostOneActive, Stamped, ComposeText.Trim;
  }

  // An update is refused without a usable organization id, or because of what it asks for.
  lemma UpdateRefusals(db: Db, org: int, q: Request, seal: Config -> Config, p: Provider)
    requires Inv(db) && Unused(db, q.newPublicId) && Concerns(db, org, q, p)
    ensures var o := UpdateSettings(db, org, q, seal);
            && (o.Failed? && o.failure == Internal <==> org < 1)
            && (o.Failed? && o.failure == BadRequest <==> org >= 1 && Refused(db, Scope(org, p), q, seal))
  {
    hide Inv, Unused, UpdateRow, Concerns, Refused, ProviderOf, Read;
    ProviderConcerned(db, org, q);
    OneConcern(db, org, q, p, ProviderOf(db, org, q));
    RowRefused(db, Scope(org, p), q, seal);
  }

  // ----- reads, creations and removals ---------------------------------------

  // What the settings page makes of the fields of an account it shows as active.
  function Shown(p: Provider, config: Config, seal: Config -> Config, slug: Config -> Config): Config {
    if p == GitHub then slug(seal(config)) else seal(config)
  }

  lemma ReadEach(db: Db, org: int, seal: Config -> Config)
    requires Inv(db)
    ensures var r := Read(db, org, seal);
            && r.rows.Keys == db.rows.Keys
            && forall x :: x in db.rows ==>
                 && SameBut(db.rows[x], r.rows[x])
                 && r.rows[x].config == if db.rows[x].scope.org == org && x in Chosen(db, db.rows[x].scope) then seal(db.rows[x].config) else db.rows[x].config
  {
    hide Ensure, Inv, SameAccounts, OnlyIn, OnlyInOrg, Pick;
    var hub, lab := Scope(org, GitHub), Scope(org, GitLab);
    var mid := Ensure(db, hub, seal);
    EnsureRows(db, hub, seal);
    EnsureKeeps(db, hub, seal);
    EnsureRows(mid, lab, seal);
    SameChoice(db, mid, hub, lab);
    if In(db, hub) != {} { PickIn(db, hub); }
    if In(db, lab) != {} { PickIn(db, lab); }
    var r := Read(db, org, seal);
    forall x | x in db.rows
      ensures SameBut(db.rows[x], r.rows[x])
              && r.rows[x].config == if db.rows[x].scope.org == org && x in Chosen(db, db.rows[x].scope) then seal(db.rows[x].config) else db.rows[x].config
    {
      assert db.rows[x].scope.provider == GitHub || db.rows[x].scope.provider == GitLab;
      assert db.rows[x].scope.org == org ==> db.rows[x].scope == hub || db.rows[x].scope == lab;
    }
  }

  // Only the accounts shown as active are touched, and of them only the fields.
  lemma GetEach(db: Db, org: int, seal: Config -> Config, slug: Config -> Config)
    requires Inv(db) && org >= 1
    ensures var r := GetSettings(db, org, seal, slug).db;
            && r.rows.Keys == db.rows.Keys
            && forall x :: x in db.rows ==>
                 && SameBut(db.rows[x], r.rows[x])
                 && r.rows[x].config ==
                    if db.rows[x].scope.org == org && x in Chosen(db, db.rows[x].scope) then Shown(db.rows[x].scope.provider, db.rows[x].config, seal, slug)
                    else db.rows[x].config
  {
    hide Read, Inv, SameAccounts, OnlyInOrg, Pick, Save, Chosen;
    var hub := Scope(org, GitHub);
    var r := Read(db, org, seal);
    ReadEach(db, org, seal);
    ReadKeeps(db, org, seal);
    assert forall x :: x in db.rows && x in Chosen(db, hub) ==> x in ActiveIn(r, hub);
    if ActiveIn(r, hub) != {} {
      var id := Latest(r, ActiveIn(r, hub));
      OneActive(r, hub, id);
      SaveRows(r, id, r.rows[id].(config := slug(r.rows[id].config)));
      assert id in Chosen(db, hub) && db.rows[id].scope == hub;
      assert forall x :: x in db.rows && x != id ==> !(db.rows[x].scope == hub && x in Chosen(db, hub));
    }
    assert forall x :: x in db.rows && db.rows[x].scope.org == org && db.rows[x].scope.provider == GitHub ==> db.rows[x].scope == hub;
  }

  // A new account is added active, and is the one its scope works with.
  lemma AddedRow(db: Db, a: Account)
    requires Inv(db) && a.active && a.publicId.Some? && Unused(db, a.publicId.value)
    ensures var on := Insert(Deactivate(db, a.scope), a);
            && Inv(on) && db.nextId !in db.rows && OthersSame(db, on, db.nextId)
            && on.rows.Keys == db.rows.Keys + {db.nextId} && on.rows[db.nextId].(updated := 0) == a.(updated := 0)
            && db.nextId in Chosen(on, a.scope)
  {
    hide OnlyIn, AtMostOneActive, UniqueNames, Deactivate, Insert, SameAccounts, Chosen;
    var off := Deactivate(db, a.scope);
    DeactivateKeeps(db, a.scope);
    DeactivateRows(db, a.scope);
    InsertKeeps(off, a) by { hide *; StillUnused(db, a.scope, a.publicId.value); DeactivateKeeps(db, a.scope); }
    InsertRows(off, a);
    ActiveIsPick(Insert(off, a), a.scope, db.nextId);
    ChosenHas(Insert(off, a), a.scope, db.nextId);
  }

  lemma StillUnused(db: Db, s: Scope, publicId: string)
    requires Unused(db, publicId)
    ensures forall id :: id in Deactivate(db, s).rows ==> Deactivate(db, s).rows[id].publicId != Some(publicId)
  {
  }

  // A new account holds the trimmed name and the edited fields, as the page then shows them; the other
  // accounts keep their name, and their fields but for what the page fills in.
  lemma CreateStores(db: Db, org: int, q: Request, seal: Config -> Config, slug: Config -> Config)
    requires Inv(db) && Unused(db, q.newPublicId) && CreateAccount(db, org, q, seal, slug).Done?
    ensures var r := CreateAccount(db, org, q, seal, slug).db;
            && r.rows.Keys == db.rows.Keys + {db.nextId} && db.nextId !in db.rows && q.edit("").Some?
            && r.rows[db.nextId].scope == Scope(org, if q.provider.Some? then q.provider.value else GitLab)
            && r.rows[db.nextId].publicId == Some(q.newPublicId)
            && r.rows[db.nextId].name == ComposeText.Trim(q.name)
            && r.rows[db.nextId].config == Shown(r.rows[db.nextId].scope.provider, q.edit("").value, seal, slug)
            && OthersShown(db, r, db.nextId, seal, slug)
  {
    hide Inv, Unused, Deactivate, Insert, GetSettings, Chosen, ComposeText.Trim;
    var s := CreateScope(org, q);
    var a := NewAccount(s, q.newPublicId, ComposeText.Trim(q.name)).(config := q.edit(EMPTY).value);
    AddedRow(db, a);
    GetEach(Insert(Deactivate(db, s), a), org, seal, slug);
  }

  lemma CreateRefusals(db: Db, org: int, q: Request, seal: Config -> Config, slug: Config -> Config)
    ensures var o := CreateAccount(db, org, q, seal, slug);
            && (o.Failed? && o.failure == Internal <==> org < 1)
            && (o.Failed? && o.failure == BadRequest <==> org >= 1 && (ComposeText.Trim(q.name) == "" || q.edit("").None?))
  {
    hide Deactivate, Insert, Read, Save, ComposeText.Trim;
  }

  lemma ChosenHas(db: Db, s: Scope, id: nat)
    requires In(db, s) != {} && Pick(db, s) == id
    ensures id in Chosen(db, s)
  {
  }

  ghost predicate OthersShown(before: Db, after: Db, id: nat, seal: Config -> Config, slug: Config -> Config) {
    && after.rows.Keys - {id} == before.rows.Keys - {id}
    && forall x :: x in before.rows && x != id && x in after.rows ==>
         && SameBut(before.rows[x], after.rows[x])
         && after.rows[x].config in {before.rows[x].config, Shown(before.rows[x].scope.provider, before.rows[x].config, seal, slug)}
  }

  lemma RemoveRows(db: Db, id: nat)
    requires id in db.rows
    ensures OthersSame(db, Remove(db, id), id) && id !in Remove(db, id).rows
  {
    hide Save;
    var s, gone := db.rows[id].scope, Delete(db, id);
    if ActiveIn(gone, s) == {} && In(gone, s) != {} {
      var next := Latest(gone, In(gone, s));
      assert next in In(gone, s);
      SaveRows(gone, next, gone.rows[next].(active := true));
    }
  }

  // A removal takes the named account and no other, and leaves the others as the page shows them.
  lemma RemoveStores(db: Db, org: int, publicId: string, seal: Config -> Config, slug: Config -> Config)
    requires Inv(db)
    ensures var o := RemoveAccount(db, org, publicId, seal, slug);
            var pid := ComposeText.Trim(publicId);
            && (o.Failed? && o.failure == Internal <==> org < 1)
            && (o.Failed? && o.failure == BadRequest <==>
                  org >= 1 && (pid == "" || forall id :: id in db.rows && db.rows[id].scope.org == org ==> db.rows[id].publicId != Some(pid)))
            && (o.Done? ==>
                  exists id :: id in db.rows && db.rows[id].scope.org == org && db.rows[id].publicId == Some(pid)
                               && id !in o.db.rows && OthersShown(db, o.db, id, seal, slug))
  {
    hide Inv, OnlyInOrg, OnlyIn, SameAccounts, Remove, GetSettings, Chosen, ComposeText.Trim;
    var pid := ComposeText.Trim(publicId);
    if org >= 1 && pid != "" {
      if Named(db, org, pid) == {} {
        forall id | id in db.rows && db.rows[id].scope.org == org ensures db.rows[id].publicId != Some(pid) {
          assert id !in Named(db, org, pid);
        }
      } else {
        var id := Latest(db, Named(db, org, pid));
        assert id in Named(db, org, pid);
        RemoveKeeps(db, id);
        RemoveRows(db, id);
        GetEach(Remove(db, id), org, seal, slug);
        GetSettingsKeeps(Remove(db, id), org, seal, slug);
      }
    }
  }
}

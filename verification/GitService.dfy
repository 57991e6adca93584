// The Git service: one read or write of the account table at a time.
module GitService {
  import opened Wrappers
  import opened GitAccounts
  import ComposeText

  datatype Result<+T> = Ok(value: T) | Err(failure: Failure)

  // An account in memory; a created one has no id before it is saved.
  datatype Entity = Entity(id: Option<nat>, row: Account)

  ghost predicate Safe(history: seq<Db>) {
    forall h :: h in history ==> AtMostOneActive(h)
  }

  class Service {
    const env: Env
    var db: Db
    // The table after every single write.
    ghost var history: seq<Db>

    constructor (env: Env)
      ensures Valid() && db == Db(map[], 0, 0) && this.env == env
    {
      this.env := env;
      db := Db(map[], 0, 0);
      history := [];
    }

    ghost predicate Valid()
      reads this
    {
      Inv(db) && Safe(history)
    }

    // ----- the store -------------------------------------------------------

    method FindLatest(among: set<nat>) returns (id: nat)
      requires Inv(db) && among <= db.rows.Keys && among != {}
      ensures id == Latest(db, among)
    {
      id :| id in among;
      var rest := among - {id};
      while rest != {}
        invariant id in among && rest <= among
        invariant forall x :: x in among - rest ==> db.rows[x].updated <= db.rows[id].updated
        decreases rest
      {
        var x :| x in rest;
        if db.rows[x].updated > db.rows[id].updated {
          id := x;
        }
        rest := rest - {x};
      }
      assert IsLatest(db, among, id);
      LatestIs(db, among, id);
    }

    method FindOne(among: set<nat>) returns (e: Option<Entity>)
      requires Inv(db) && among <= db.rows.Keys
      ensures e.None? <==> among == {}
      ensures e.Some? ==> var id := Latest(db, among); e.value == Entity(Some(id), db.rows[id])
    {
      if among == {} {
        return None;
      }
      var id := FindLatest(among);
      return Some(Entity(Some(id), db.rows[id]));
    }

    method SaveRow(e: Entity) returns (saved: Entity)
      requires Safe(history)
      requires e.id.Some? ==> e.id.value in db.rows
      requires AtMostOneActive(if e.id.Some? then Save(db, e.id.value, e.row) else Insert(db, e.row))
      modifies this`db, this`history
      ensures db == if e.id.Some? then Save(old(db), e.id.value, e.row) else Insert(old(db), e.row)
      ensures Safe(history)
      ensures saved.id == Some(if e.id.Some? then e.id.value else old(db).nextId)
      ensures saved.id.value in db.rows && saved.row == db.rows[saved.id.value]
    {
      var id := if e.id.Some? then e.id.value else db.nextId;
      db := if e.id.Some? then Save(db, id, e.row) else Insert(db, e.row);
      history := history + [db];
      saved := Entity(Some(id), db.rows[id]);
    }

    method SwitchOff(s: Scope)
      requires Valid()
      modifies this`db, this`history
      ensures Valid() && db == Deactivate(old(db), s)
    {
      DeactivateKeeps(db, s);
      db := Deactivate(db, s);
      history := history + [db];
    }

    method RemoveRow(id: nat)
      requires Valid() && id in db.rows
      modifies this`db, this`history
      ensures Valid() && db == Delete(old(db), id)
    {
      DeleteKeeps(db, id);
      db := Delete(db, id);
      history := history + [db];
    }

    // ----- the service -----------------------------------------------------

    method MigrateRowSecrets(e: Entity) returns (r: Entity)
      requires Valid() && e.id.Some? && e.id.value in db.rows && e.row == db.rows[e.id.value] && e.row.active
      modifies this`db, this`history
      ensures Valid() && db == Reseal(old(db), e.id.value, env.seal)
      ensures r.id == e.id && e.id.value in db.rows && r.row == db.rows[e.id.value]
    {
      var next := env.seal(e.row.config);
      OneActive(db, e.row.scope, e.id.value);
      SaveKeeps(db, e.id.value, e.row.(config := next));
      if next == e.row.config {
        return e;
      }
      r := SaveRow(e.(row := e.row.(config := next)));
    }

    method ProviderSettingsRowForOrganizationOptional(s: Scope) returns (r: Option<Entity>)
      requires Valid()
      modifies this`db, this`history
      ensures Valid() && db == Ensure(old(db), s, env.seal)
      ensures r.None? <==> In(old(db), s) == {}
      ensures r.Some? ==> var id := Pick(old(db), s); id in db.rows && r.value == Entity(Some(id), db.rows[id])
    {
      hide Inv, Safe, Save, ExactlyOne;
      var active := FindOne(ActiveIn(db, s));
      if active.Some? {
        var id := active.value.id.value;
        assert Save(db, id, db.rows[id].(active := true)) == db by { hide *; SaveSame(db, id); }
        var e := MigrateRowSecrets(active.value);
        return Some(e);
      }
      var latest := FindOne(In(db, s));
      if latest.None? {
        return None;
      }
      var e := latest.value;
      SaveKeeps(db, e.id.value, e.row.(active := true));
      if !e.row.active {
        SavedOnce(db, e.id.value, e.row.(active := true));
        e := SaveRow(e.(row := e.row.(active := true)));
      }
      e := MigrateRowSecrets(e);
      return Some(e);
    }

    method ProviderSettingsRowForOrganization(s: Scope, newPublicId: string) returns (r: Entity)
      requires Valid() && Unused(db, newPublicId)
      modifies this`db, this`history
      ensures Valid() && db == Obtain(old(db), s, newPublicId, env.seal)
      ensures var id := Latest(db, ActiveIn(db, s)); id in db.rows && r == Entity(Some(id), db.rows[id])
    {
      hide Inv, Safe, Save, Insert, ActiveIn;
      ghost var before := db;
      ObtainKeeps(db, s, newPublicId, env.seal);
      var e := ProviderSettingsRowForOrganizationOptional(s);
      if e.Some? {
        EnsureKeeps(before, s, env.seal);
        OneActive(db, s, e.value.id.value);
        return e.value;
      }
      var created := Account(s, Some(newPublicId), "Default account", EMPTY, true, 0);
      assert db == before;
      InsertKeeps(db, created);
      SavedInv(Insert(db, created));
      r := SaveRow(Entity(None, created));
      assert r.row.active by { hide *; InsertedRow(before, created); }
      r := MigrateRowSecrets(r);
      OneActive(db, s, r.id.value);
    }

    // The row an update works on; with a named or a new account the others are switched off first.
    method ResolveRowForUpdate(s: Scope, q: Request) returns (r: Result<Entity>)
      requires Valid() && Unused(db, q.newPublicId)
      modifies this`db, this`history
      ensures Valid()
      ensures r.Err? ==> db == old(db) && UpdateRow(old(db), s, q, env.seal) == Failed(old(db), r.failure)
      ensures r.Ok? ==>
                && (if r.value.id.Some? then r.value.id.value in db.rows else true)
                && UpdateRow(old(db), s, q, env.seal) == Apply(db, if r.value.id.Some? then r.value.id.value else db.nextId, r.value.row, q)
    {
      hide Inv, Safe, Save, Insert, Unused, ActiveIn, Deactivate, Obtain, Apply;
      ghost var before := db;
      var pid := ComposeText.Trim(q.publicId);
      if pid != "" {
        var found := FindOne(Named(db, s.org, pid) * In(db, s));
        if found.None? {
          return Err(BadRequest);
        }
        SwitchOff(s);
        KeysKept(before, s);
        return Ok(Entity(found.value.id, found.value.row.(active := true)));
      }
      if q.createNew {
        var name := ComposeText.Trim(q.name);
        if name == "" {
          return Err(BadRequest);
        }
        SwitchOff(s);
        KeysKept(before, s);
        assert db.nextId !in db.rows by { hide *; NextIsNew(db); }
        return Ok(Entity(None, NewAccount(s, q.newPublicId, name)));
      }
      var e := ProviderSettingsRowForOrganization(s, q.newPublicId);
      return Ok(e);
    }

    method UpdateSettings(org: int, q: Request) returns (r: Result<()>)
      requires Valid() && Unused(db, q.newPublicId)
      modifies this`db, this`history
      ensures Valid() && db == Step(old(db), Update(org, q), env).db
      ensures r.Ok? <==> Step(old(db), Update(org, q), env).Done?
      ensures r.Err? ==> r.failure == Step(old(db), Update(org, q), env).failure
    {
      hide Inv, Safe, Save, Insert, Unused, ActiveIn, Deactivate, Obtain, UpdateRow, Ensure, AtMostOneActive;
      if org < 1 {
        return Err(Internal);
      }
      ghost var before := db;
      var provider := if q.provider.Some? then q.provider.value else if q.touchesGithub then GitHub else GitLab;
      var pid := ComposeText.Trim(q.publicId);
      if !q.touchesGithub && pid != "" {
        var byPublic := FindOne(Named(db, org, pid));
        if byPublic.Some? {
          provider := byPublic.value.row.scope.provider;
        }
      }
      var s := Scope(org, provider);
      UpdateRowKeeps(db, s, q, env.seal);
      var found := ResolveRowForUpdate(s, q);
      if found.Err? {
        return Err(found.failure);
      }
      var e := found.value;
      if ComposeText.Trim(q.name) != "" {
        e := e.(row := e.row.(name := ComposeText.Trim(q.name)));
      }
      var edited := q.edit(e.row.config);
      if edited.None? {
        return Err(BadRequest);
      }
      e := e.(row := e.row.(config := edited.value));
      assert db.nextId !in db.rows by { hide *; NextIsNew(db); }
      SavedInv(UpdateRow(before, s, q, env.seal).db);
      e := SaveRow(e);
      var github := ProviderSettingsRowForOrganizationOptional(Scope(org, GitHub));
      var gitlab := ProviderSettingsRowForOrganizationOptional(Scope(org, GitLab));
      return Ok(());
    }

    method GetSettings(org: int) returns (r: Result<()>)
      requires Valid()
      modifies this`db, this`history
      ensures Valid() && db == Step(old(db), Get(org), env).db
      ensures r.Ok? <==> org >= 1
    {
      hide Inv, Safe, Save, ActiveIn, AtMostOneActive, OnlyIn, OnlyInOrg, SameAccounts, Ensure, Pick, Insert;
      if org < 1 {
        return Err(Internal);
      }
      ghost var before := db;
      GetSettingsKeeps(db, org, env.seal, env.slug);
      ReadKeeps(db, org, env.seal);
      var hub := Scope(org, GitHub);
      var github := ProviderSettingsRowForOrganizationOptional(hub);
      EnsureKeeps(before, hub, env.seal);
      var gitlab := ProviderSettingsRowForOrganizationOptional(Scope(org, GitLab));
      if github.Some? {
        var id := github.value.id.value;
        ChosenIs(before, hub);
        OneActive(db, hub, id);
        KeptRow(before, hub, Scope(org, GitLab), env.seal, id);
        var slug := env.slug(github.value.row.config);
        SavedInv(GitAccounts.GetSettings(before, org, env.seal, env.slug).db);
        if slug != github.value.row.config {
          var e := SaveRow(github.value.(row := github.value.row.(config := slug)));
        } else {
          SaveNothing(db, id);
        }
      }
      return Ok(());
    }

    method CreateAccount(org: int, q: Request) returns (r: Result<()>)
      requires Valid() && Unused(db, q.newPublicId)
      modifies this`db, this`history
      ensures Valid() && db == Step(old(db), Create(org, q), env).db
      ensures r.Ok? <==> Step(old(db), Create(org, q), env).Done?
    {
      hide Inv, Safe, Insert, Unused, Deactivate, GitAccounts.GetSettings, AtMostOneActive;
      if org < 1 {
        return Err(Internal);
      }
      var name := ComposeText.Trim(q.name);
      if name == "" {
        return Err(BadRequest);
      }
      ghost var before := db;
      var s := CreateScope(org, q);
      SwitchOff(s);
      var edited := q.edit(EMPTY);
      if edited.None? {
        return Err(BadRequest);
      }
      var row := NewAccount(s, q.newPublicId, name).(config := edited.value);
      GetSettingsKeeps(Insert(db, row), org, env.seal, env.slug) by { hide GitAccounts.CreateAccount; CreatedInv(before, s, row); }
      CreatedInv(before, s, row);
      SavedInv(Insert(db, row));
      var e := SaveRow(Entity(None, row));
      r := GetSettings(org);
    }

    method RemoveAccount(org: int, accountPublicId: string) returns (r: Result<()>)
      requires Valid()
      modifies this`db, this`history
      ensures Valid() && db == Step(old(db), RemoveOp(org, accountPublicId), env).db
      ensures r.Ok? <==> Step(old(db), RemoveOp(org, accountPublicId), env).Done?
    {
      hide Inv, Safe, Save, AtMostOneActive, GitAccounts.GetSettings, OnlyIn, OnlyInOrg, SameAccounts, Chosen, ComposeText.Trim;
      if org < 1 {
        return Err(Internal);
      }
      var pid := ComposeText.Trim(accountPublicId);
      if pid == "" {
        return Err(BadRequest);
      }
      var row := FindOne(Named(db, org, pid));
      if row.None? {
        return Err(BadRequest);
      }
      var s := row.value.row.scope;
      RemoveKeeps(db, row.value.id.value);
      SavedInv(Remove(db, row.value.id.value));
      GetSettingsKeeps(Remove(db, row.value.id.value), org, env.seal, env.slug);
      RemoveRow(row.value.id.value);
      var active := FindOne(ActiveIn(db, s));
      if active.None? {
        var fallback := FindOne(In(db, s));
        if fallback.Some? {
          var e := SaveRow(fallback.value.(row := fallback.value.row.(active := true)));
        }
      }
      r := GetSettings(org);
    }
  }

  lemma SaveSame(db: Db, id: nat)
    requires id in db.rows && db.rows[id].active
    ensures Save(db, id, db.rows[id].(active := true)) == db
  {
  }

  lemma SavedOnce(db: Db, id: nat, a: Account)
    requires id in db.rows && Inv(Save(db, id, a))
    ensures AtMostOneActive(Save(db, id, a))
  {
  }

  lemma SaveNothing(db: Db, id: nat)
    requires id in db.rows
    ensures Save(db, id, db.rows[id]) == db
  {
  }

  lemma SavedInv(db: Db)
    requires Inv(db)
    ensures AtMostOneActive(db)
  {
  }

  lemma InsertedRow(db: Db, a: Account)
    ensures var r := Insert(db, a); db.nextId in r.rows && r.rows[db.nextId] == a.(updated := db.clock)
  {
  }

  lemma KeysKept(db: Db, s: Scope)
    ensures Deactivate(db, s).rows.Keys == db.rows.Keys && Deactivate(db, s).nextId == db.nextId
  {
  }

  lemma NextIsNew(db: Db)
    requires Inv(db)
    ensures db.nextId !in db.rows
  {
  }

  lemma CreatedInv(db: Db, s: Scope, row: Account)
    requires Inv(db) && row.scope == s && row.publicId.Some? && Unused(db, row.publicId.value)
    ensures Inv(Insert(Deactivate(db, s), row))
  {
    hide AtMostOneActive, Stamped, UniqueNames, OnlyIn, Insert, Deactivate;
    DeactivateKeeps(db, s);
    InsertKeeps(Deactivate(db, s), row);
  }

  lemma ChosenIs(db: Db, s: Scope)
    ensures In(db, s) != {} ==> Chosen(db, s) == {Pick(db, s)}
  {
  }

  // Reading the second scope leaves the row read for the first as it was.
  lemma KeptRow(db: Db, s: Scope, t: Scope, seal: Config -> Config, id: nat)
    requires Inv(db) && s != t && id in Ensure(db, s, seal).rows && Ensure(db, s, seal).rows[id].scope == s
    ensures var a, b := Ensure(db, s, seal), Ensure(Ensure(db, s, seal), t, seal); id in b.rows && b.rows[id] == a.rows[id]
  {
    hide Inv, Ensure, SameAccounts;
    EnsureKeeps(db, s, seal);
    EnsureKeeps(Ensure(db, s, seal), t, seal);
  }
}

// The startup backfill of organization ids: six tables filled one after the other, later ones from
// earlier ones, followed by a repair of the storage keys.
module OrgScopeBackfill {
  import opened Wrappers
  import opened Memberships
  import opened Decimal

  // A row of any of the tables. `user` is the legacy owner, `parent` the row it hangs on: the
  // remote server of a channel or a cron job, the service of a webhook, the project of a service.
  datatype Row = Row(id: int, user: int, parent: Option<int>, org: Option<int>, key: string)

  // Which tables still have their legacy user column; without it the query fails and finds nothing.
  datatype Legacy = Legacy(projects: bool, servers: bool, s3: bool, webhooks: bool)

  datatype Tables = Tables(projects: seq<Row>, servers: seq<Row>, s3: seq<Row>, channels: seq<Row>, crons: seq<Row>, webhooks: seq<Row>, services: seq<Row>)

  predicate DistinctIds(rows: seq<Row>) {
    forall i, j :: 0 <= i < j < |rows| ==> rows[i].id != rows[j].id
  }

  predicate Keyed(t: Tables) {
    && DistinctIds(t.projects) && DistinctIds(t.servers) && DistinctIds(t.s3) && DistinctIds(t.channels)
    && DistinctIds(t.crons) && DistinctIds(t.webhooks)
  }

  function WorkspaceKey(org: int): string {
    "o:" + if org < 0 then "-" + Digits(-org) else Digits(org)
  }

  // ----- resolving an organization -------------------------------------------

  // The organization the user joined first; `links` is in creation order.
  function DefaultOrg(links: seq<Membership>, user: int): Option<int> {
    if links == [] then None
    else if links[0].user == user then Some(links[0].org)
    else DefaultOrg(links[1..], user)
  }

  function Find(rows: seq<Row>, id: int): (r: Option<Row>)
    ensures r.Some? ==> r.value in rows && r.value.id == id
    ensures r.None? ==> forall x :: x in rows ==> x.id != id
  {
    if rows == [] then None else if rows[0].id == id then Some(rows[0]) else Find(rows[1..], id)
  }

  function OrgIn(rows: seq<Row>, id: Option<int>): Option<int> {
    if id.None? || Find(rows, id.value).None? then None else Find(rows, id.value).value.org
  }

  // Organization of the project of a service.
  function OrgViaService(services: seq<Row>, projects: seq<Row>, id: Option<int>): Option<int> {
    if id.None? || Find(services, id.value).None? then None
    else OrgIn(projects, Find(services, id.value).value.parent)
  }

  function Or(first: Option<int>, second: Option<int>): Option<int> {
    if first.Some? then first else second
  }

  // ----- one pass over each table --------------------------------------------

  function ByUser(links: seq<Membership>, legacy: bool): Row -> Row {
    (r: Row) => if legacy then r.(org := Or(r.org, DefaultOrg(links, r.user))) else r
  }

  function S3ByUser(links: seq<Membership>, legacy: bool): Row -> Row {
    (r: Row) =>
      if legacy && r.org.None? && DefaultOrg(links, r.user).Some? then
        r.(org := DefaultOrg(links, r.user), key := WorkspaceKey(DefaultOrg(links, r.user).value))
      else r
  }

  function ByServer(servers: seq<Row>): Row -> Row {
    (r: Row) => r.(org := Or(r.org, OrgIn(servers, r.parent)))
  }

  function ByService(services: seq<Row>, projects: seq<Row>, links: seq<Membership>, legacy: bool): Row -> Row {
    (r: Row) =>
      if legacy then r.(org := Or(r.org, Or(OrgViaService(services, projects, r.parent), DefaultOrg(links, r.user)))) else r
  }

  function RepairKey(): Row -> Row {
    (r: Row) => if r.org.Some? then r.(key := WorkspaceKey(r.org.value)) else r
  }

  function Each(rows: seq<Row>, f: Row -> Row): (r: seq<Row>)
    ensures |r| == |rows| && forall i :: 0 <= i < |rows| ==> r[i] == f(rows[i])
  {
    seq(|rows|, i requires 0 <= i < |rows| => f(rows[i]))
  }

  function Backfill(t: Tables, links: seq<Membership>, legacy: Legacy): Tables {
    var projects := Each(t.projects, ByUser(links, legacy.projects));
    var servers := Each(t.servers, ByUser(links, legacy.servers));
    Tables(
      projects,
      servers,
      Each(Each(t.s3, S3ByUser(links, legacy.s3)), RepairKey()),
      Each(t.channels, ByServer(servers)),
      Each(t.crons, ByServer(servers)),
      Each(t.webhooks, ByService(t.services, projects, links, legacy.webhooks)),
      t.services)
  }

  // ----- the loops -----------------------------------------------------------

  class Repository {
    var rows: seq<Row>

    constructor (rows: seq<Row>)
      ensures this.rows == rows
    {
      this.rows := rows;
    }

    // WHERE organization_id IS NULL
    method FindMissing() returns (r: seq<Row>)
      ensures forall x :: x in r <==> x in rows && x.org.None?
      ensures DistinctIds(rows) ==> DistinctIds(r)
    {
      r := [];
      for i := 0 to |rows|
        invariant forall x :: x in r <==> x in rows[..i] && x.org.None?
        invariant DistinctIds(rows) ==> DistinctIds(r)
      {
        if rows[i].org.None? {
          r := r + [rows[i]];
        }
      }
    }

    method FindOne(id: int) returns (r: Option<Row>)
      ensures r == Find(rows, id)
    {
      r := Find(rows, id);
    }

    method Save(row: Row)
      modifies this
      ensures |rows| == |old(rows)|
      ensures forall i :: 0 <= i < |rows| ==> rows[i] == if old(rows)[i].id == row.id then row else old(rows)[i]
    {
      ghost var before := rows;
      for i := 0 to |rows|
        invariant |rows| == |before|
        invariant forall j :: 0 <= j < |rows| ==> rows[j] == if j < i && before[j].id == row.id then row else before[j]
      {
        if rows[i].id == row.id {
          rows := rows[i := row];
        }
      }
    }

    method CountMissing() returns (n: nat)
      ensures n == 0 <==> forall x :: x in rows ==> x.org.Some?
    {
      n := 0;
      for i := 0 to |rows|
        invariant n == 0 <==> forall x :: x in rows[..i] ==> x.org.Some?
      {
        assert rows[..i + 1] == rows[..i] + [rows[i]];
        if rows[i].org.None? {
          n := n + 1;
        }
      }
      assert rows[..|rows|] == rows;
    }
  }

  // The table once the rows with the given ids are done.
  ghost predicate Reached(now: seq<Row>, before: seq<Row>, ids: set<int>, f: Row -> Row) {
    && |now| == |before|
    && forall i :: 0 <= i < |before| ==> now[i] == if before[i].id in ids then f(before[i]) else before[i]
  }

  ghost predicate KeepsIds(f: Row -> Row) {
    forall r: Row :: f(r).id == r.id
  }

  ghost function Ids(rows: seq<Row>): set<int> {
    set r | r in rows :: r.id
  }

  lemma FindReached(now: seq<Row>, before: seq<Row>, ids: set<int>, f: Row -> Row, row: Row)
    requires DistinctIds(before) && Reached(now, before, ids, f) && KeepsIds(f)
    requires row in before && row.id !in ids
    ensures Find(now, row.id) == Some(row)
  {
    var i :| 0 <= i < |before| && before[i] == row;
    assert now[i] == row && row in now;
    var r := Find(now, row.id).value;
    var j :| 0 <= j < |now| && now[j] == r;
    assert before[j].id == row.id;
  }

  lemma FindSaved(now: seq<Row>, before: seq<Row>, f: Row -> Row, row: Row, saved: seq<Row>, ids: set<int>)
    requires DistinctIds(before) && Reached(now, before, ids, f) && KeepsIds(f)
    requires row in before && |saved| == |now|
    requires forall i :: 0 <= i < |saved| ==> saved[i] == if now[i].id == row.id then f(row) else now[i]
    ensures Reached(saved, before, ids + {row.id}, f)
  {
    forall i | 0 <= i < |before| ensures saved[i] == if before[i].id in ids + {row.id} then f(before[i]) else before[i] {
      assert now[i].id == before[i].id;
      var k :| 0 <= k < |before| && before[k] == row;
      assert before[i].id == row.id ==> i == k;
    }
  }

  // Rows whose organization was already known are left as they are.
  ghost predicate FillsOnlyMissing(f: Row -> Row) {
    forall r: Row :: r.org.Some? ==> f(r) == r
  }

  lemma FillEnds(now: seq<Row>, before: seq<Row>, missing: seq<Row>, f: Row -> Row)
    requires Reached(now, before, Ids(missing), f) && FillsOnlyMissing(f)
    requires forall x :: x in before && x.org.None? ==> x in missing
    requires forall x :: x in missing ==> x in before && x.org.None?
    requires DistinctIds(before)
    ensures now == Each(before, f)
  {
    forall i | 0 <= i < |before| ensures now[i] == f(before[i]) {
      if before[i].org.None? {
        assert before[i] in missing && before[i].id in Ids(missing);
      }
    }
  }

  lemma Advance(now: seq<Row>, before: seq<Row>, missing: seq<Row>, k: nat, f: Row -> Row)
    requires k < |missing| && DistinctIds(missing) && DistinctIds(before) && KeepsIds(f)
    requires Reached(now, before, Ids(missing[..k]), f) && missing[k] in before
    ensures missing[k].id !in Ids(missing[..k]) && Find(now, missing[k].id) == Some(missing[k])
    ensures Ids(missing[..k + 1]) == Ids(missing[..k]) + {missing[k].id}
    ensures f(missing[k]) == missing[k] ==> Reached(now, before, Ids(missing[..k + 1]), f)
  {
    assert missing[..k + 1] == missing[..k] + [missing[k]];
    FindReached(now, before, Ids(missing[..k]), f, missing[k]);
    if f(missing[k]) == missing[k] {
      FindSaved(now, before, f, missing[k], now, Ids(missing[..k]));
    }
  }

  method AssignByUser(repo: Repository, links: seq<Membership>, legacy: bool)
    requires DistinctIds(repo.rows)
    modifies repo
    ensures repo.rows == Each(old(repo.rows), ByUser(links, legacy))
  {
    ghost var before, f := repo.rows, ByUser(links, legacy);
    if !legacy {
      return;
    }
    var missing := repo.FindMissing();
    for k := 0 to |missing|
      invariant Reached(repo.rows, before, Ids(missing[..k]), f)
    {
      hide Reached, DistinctIds, Ids;
      Advance(repo.rows, before, missing, k, f);
      var oid := DefaultOrg(links, missing[k].user);
      if oid.None? {
        continue;
      }
      var row := repo.FindOne(missing[k].id);
      if row.None? {
        continue;
      }
      ghost var now := repo.rows;
      repo.Save(row.value.(org := oid));
      FindSaved(now, before, f, missing[k], repo.rows, Ids(missing[..k]));
    }
    assert missing[..|missing|] == missing;
    FillEnds(repo.rows, before, missing, f);
  }

  method AssignS3(repo: Repository, links: seq<Membership>, legacy: bool)
    requires DistinctIds(repo.rows)
    modifies repo
    ensures repo.rows == Each(old(repo.rows), S3ByUser(links, legacy))
  {
    ghost var before, f := repo.rows, S3ByUser(links, legacy);
    if !legacy {
      return;
    }
    var missing := repo.FindMissing();
    for k := 0 to |missing|
      invariant Reached(repo.rows, before, Ids(missing[..k]), f)
    {
      hide Reached, DistinctIds, Ids;
      Advance(repo.rows, before, missing, k, f);
      var oid := DefaultOrg(links, missing[k].user);
      if oid.None? {
        continue;
      }
      var row := repo.FindOne(missing[k].id);
      if row.None? {
        continue;
      }
      ghost var now := repo.rows;
      repo.Save(row.value.(org := oid, key := WorkspaceKey(oid.value)));
      FindSaved(now, before, f, missing[k], repo.rows, Ids(missing[..k]));
    }
    assert missing[..|missing|] == missing;
    FillEnds(repo.rows, before, missing, f);
  }

  // Channels and cron jobs.
  method AssignByServer(repo: Repository, servers: Repository)
    requires repo != servers && DistinctIds(repo.rows)
    modifies repo
    ensures repo.rows == Each(old(repo.rows), ByServer(servers.rows))
  {
    ghost var before, f := repo.rows, ByServer(servers.rows);
    var missing := repo.FindMissing();
    for k := 0 to |missing|
      invariant Reached(repo.rows, before, Ids(missing[..k]), f)
    {
      hide Reached, DistinctIds, Ids;
      Advance(repo.rows, before, missing, k, f);
      var oid: Option<int> := None;
      if missing[k].parent.Some? {
        var rs := servers.FindOne(missing[k].parent.value);
        oid := if rs.Some? then rs.value.org else None;
      }
      if oid.None? {
        continue;
      }
      ghost var now := repo.rows;
      repo.Save(missing[k].(org := oid));
      FindSaved(now, before, f, missing[k], repo.rows, Ids(missing[..k]));
    }
    assert missing[..|missing|] == missing;
    FillEnds(repo.rows, before, missing, f);
  }

  method AssignWebhooks(repo: Repository, services: Repository, projects: Repository, links: seq<Membership>, legacy: bool)
    requires repo != services && repo != projects && DistinctIds(repo.rows)
    modifies repo
    ensures repo.rows == Each(old(repo.rows), ByService(services.rows, projects.rows, links, legacy))
  {
    ghost var before, f := repo.rows, ByService(services.rows, projects.rows, links, legacy);
    if !legacy {
      return;
    }
    var missing := repo.FindMissing();
    for k := 0 to |missing|
      invariant Reached(repo.rows, before, Ids(missing[..k]), f)
    {
      hide Reached, DistinctIds, Ids;
      Advance(repo.rows, before, missing, k, f);
      var oid: Option<int> := None;
      var row := repo.FindOne(missing[k].id);
      if row.None? {
        continue;
      }
      if row.value.parent.Some? {
        var svc := services.FindOne(row.value.parent.value);
        if svc.Some? && svc.value.parent.Some? {
          var project := projects.FindOne(svc.value.parent.value);
          oid := if project.Some? then project.value.org else None;
        }
      }
      if oid.None? {
        oid := DefaultOrg(links, missing[k].user);
      }
      if oid.None? {
        continue;
      }
      ghost var now := repo.rows;
      repo.Save(row.value.(org := oid));
      FindSaved(now, before, f, missing[k], repo.rows, Ids(missing[..k]));
    }
    assert missing[..|missing|] == missing;
    FillEnds(repo.rows, before, missing, f);
  }

  method RepairKeys(repo: Repository)
    requires DistinctIds(repo.rows)
    modifies repo
    ensures repo.rows == Each(old(repo.rows), RepairKey())
  {
    var rows := repo.rows;
    ghost var f := RepairKey();
    for k := 0 to |rows|
      invariant Reached(repo.rows, rows, Ids(rows[..k]), f)
    {
      hide Reached, DistinctIds, Ids;
      Advance(repo.rows, rows, rows, k, f);
      var row := rows[k];
      if row.org.None? {
        continue;
      }
      var expected := WorkspaceKey(row.org.value);
      if row.key != expected {
        ghost var now := repo.rows;
        repo.Save(row.(key := expected));
        FindSaved(now, rows, f, row, repo.rows, Ids(rows[..k]));
      }
    }
    assert rows[..|rows|] == rows;
    assert forall i :: 0 <= i < |rows| ==> rows[i] in rows;
  }

  class Database {
    const projects: Repository
    const servers: Repository
    const s3: Repository
    const channels: Repository
    const crons: Repository
    const webhooks: Repository
    const services: Repository

    constructor (t: Tables)
      ensures Separate() && Contents() == t
    {
      projects := new Repository(t.projects);
      servers := new Repository(t.servers);
      s3 := new Repository(t.s3);
      channels := new Repository(t.channels);
      crons := new Repository(t.crons);
      webhooks := new Repository(t.webhooks);
      services := new Repository(t.services);
    }

    predicate Separate() {
      && projects !in {servers, s3, channels, crons, webhooks, services}
      && servers !in {s3, channels, crons, webhooks, services}
      && s3 !in {channels, crons, webhooks, services}
      && channels !in {crons, webhooks, services}
      && crons !in {webhooks, services} && webhooks != services
    }

    function Contents(): Tables
      reads projects, servers, s3, channels, crons, webhooks, services
    {
      Tables(projects.rows, servers.rows, s3.rows, channels.rows, crons.rows, webhooks.rows, services.rows)
    }
  }

  // `remain` is the number of rows the closing log line reports as unassigned.
  method RunOrgScopeSchemaBackfill(db: Database, links: seq<Membership>, legacy: Legacy) returns (remain: nat)
    requires db.Separate() && Keyed(db.Contents())
    modifies db.projects, db.servers, db.s3, db.channels, db.crons, db.webhooks
    ensures db.Contents() == Backfill(old(db.Contents()), links, legacy)
    ensures remain == 0 <==> AllAssigned(db.Contents())
  {
    AssignByUser(db.projects, links, legacy.projects);
    AssignByUser(db.servers, links, legacy.servers);
    AssignS3(db.s3, links, legacy.s3);
    AssignByServer(db.channels, db.servers);
    AssignByServer(db.crons, db.servers);
    AssignWebhooks(db.webhooks, db.services, db.projects, links, legacy.webhooks);
    RepairKeys(db.s3);
    var a := db.projects.CountMissing();
    var b := db.servers.CountMissing();
    var c := db.s3.CountMissing();
    var d := db.webhooks.CountMissing();
    var e := db.crons.CountMissing();
    var f := db.channels.CountMissing();
    remain := a + b + c + d + e + f;
  }

  predicate Assigned(rows: seq<Row>) {
    forall x :: x in rows ==> x.org.Some?
  }

  predicate AllAssigned(t: Tables) {
    && Assigned(t.projects) && Assigned(t.servers) && Assigned(t.s3) && Assigned(t.channels)
    && Assigned(t.crons) && Assigned(t.webhooks)
  }

  // ----- what a pass guarantees ----------------------------------------------

  lemma {:induction false} FindEach(rows: seq<Row>, f: Row -> Row, id: int)
    requires KeepsIds(f)
    ensures Find(Each(rows, f), id) == if Find(rows, id).None? then None else Some(f(Find(rows, id).value))
  {
    if rows != [] {
      assert Each(rows, f)[1..] == Each(rows[1..], f);
      FindEach(rows[1..], f, id);
    }
  }

  // DefaultOrg finds the organization joined first, and nothing exactly when there is none.
  lemma {:induction false} DefaultOrgExact(links: seq<Membership>, user: int, org: Option<int>)
    ensures DefaultOrg(links, user) == org <==> FirstJoined(links, user, org)
  {
    hide FirstJoined;
    if links == [] {
      FirstOfNone(user, org);
    } else {
      FirstJoinedUnfold(links, user, org);
      DefaultOrgExact(links[1..], user, org);
    }
  }

  // The organization a row ends with that is filled by its user: its own, else the one its user joined
  // first, which only a table that still has its user column can tell.
  ghost predicate OwnOrFirst(row: Row, links: seq<Membership>, legacy: bool, org: Option<int>) {
    if row.org.Some? then org == row.org else if legacy then FirstJoined(links, row.user, org) else org.None?
  }

  // The same of the row with the given id; no organization when there is no such row.
  ghost predicate OwnOrFirstOf(rows: seq<Row>, id: Option<int>, links: seq<Membership>, legacy: bool, org: Option<int>) {
    if id.None? || forall x :: x in rows ==> x.id != id.value then org.None?
    else forall x :: x in rows && x.id == id.value ==> OwnOrFirst(x, links, legacy, org)
  }

  lemma ByUserResolves(row: Row, links: seq<Membership>, legacy: bool)
    ensures OwnOrFirst(row, links, legacy, ByUser(links, legacy)(row).org)
    ensures OwnOrFirst(row, links, legacy, S3ByUser(links, legacy)(row).org)
  {
    hide DefaultOrg, FirstJoined, WorkspaceKey;
    DefaultOrgExact(links, row.user, DefaultOrg(links, row.user));
  }

  lemma ParentAfter(rows: seq<Row>, links: seq<Membership>, legacy: bool, id: Option<int>)
    requires DistinctIds(rows)
    ensures OwnOrFirstOf(rows, id, links, legacy, OrgIn(Each(rows, ByUser(links, legacy)), id))
  {
    hide DefaultOrg, OwnOrFirst, Find, DistinctIds;
    if id.Some? {
      FindEach(rows, ByUser(links, legacy), id.value);
      if Find(rows, id.value).Some? {
        var found := Find(rows, id.value).value;
        ByUserResolves(found, links, legacy);
        forall x | x in rows && x.id == id.value ensures x == found {
          SameId(rows, x, found);
        }
      }
    }
  }

  lemma SameId(rows: seq<Row>, x: Row, y: Row)
    requires DistinctIds(rows) && x in rows && y in rows && x.id == y.id
    ensures x == y
  {
  }

  // The organization of every row after the pass, from the tables before it: dependent rows see
  // the organization their parent gets in the same pass.
  lemma BackfillResolves(t: Tables, links: seq<Membership>, legacy: Legacy, i: nat)
    requires Keyed(t)
    ensures var r := Backfill(t, links, legacy);
            && (i < |t.projects| ==> OwnOrFirst(t.projects[i], links, legacy.projects, r.projects[i].org))
            && (i < |t.servers| ==> OwnOrFirst(t.servers[i], links, legacy.servers, r.servers[i].org))
            && (i < |t.s3| ==> OwnOrFirst(t.s3[i], links, legacy.s3, r.s3[i].org))
            && (i < |t.channels| ==> ServerResolves(t, links, legacy, t.channels[i], r.channels[i].org))
            && (i < |t.crons| ==> ServerResolves(t, links, legacy, t.crons[i], r.crons[i].org))
  {
    hide Find, DefaultOrg, DistinctIds, OwnOrFirst, OwnOrFirstOf, OrgIn;
    if i < |t.projects| {
      ByUserResolves(t.projects[i], links, legacy.projects);
    }
    if i < |t.servers| {
      ByUserResolves(t.servers[i], links, legacy.servers);
    }
    if i < |t.s3| {
      ByUserResolves(t.s3[i], links, legacy.s3);
    }
    if i < |t.channels| {
      ParentAfter(t.servers, links, legacy.servers, t.channels[i].parent);
    }
    if i < |t.crons| {
      ParentAfter(t.servers, links, legacy.servers, t.crons[i].parent);
    }
  }

  // A channel or a cron job: its own organization, else the one its server ends with.
  ghost predicate ServerResolves(t: Tables, links: seq<Membership>, legacy: Legacy, row: Row, org: Option<int>) {
    if row.org.Some? then org == row.org else OwnOrFirstOf(t.servers, row.parent, links, legacy.servers, org)
  }

  // A webhook: its own organization, else the one the project of its service ends with, else the one
  // its user joined first.
  lemma WebhookResolves(t: Tables, links: seq<Membership>, legacy: Legacy, i: nat)
    requires Keyed(t) && i < |t.webhooks|
    ensures var hook, org := t.webhooks[i], Backfill(t, links, legacy).webhooks[i].org;
            if hook.org.Some? || !legacy.webhooks then org == hook.org
            else
              exists viaProject: Option<int> ::
                && OwnOrFirstOf(t.projects, ServiceParent(t.services, hook.parent), links, legacy.projects, viaProject)
                && if viaProject.Some? then org == viaProject else FirstJoined(links, hook.user, org)
  {
    hide Find, DefaultOrg, FirstJoined, DistinctIds, OwnOrFirstOf, OrgIn;
    var hook := t.webhooks[i];
    var id := ServiceParent(t.services, hook.parent);
    ParentAfter(t.projects, links, legacy.projects, id);
    var viaProject := OrgIn(Each(t.projects, ByUser(links, legacy.projects)), id);
    DefaultOrgExact(links, hook.user, DefaultOrg(links, hook.user));
    ServiceParentOrg(t.services, Each(t.projects, ByUser(links, legacy.projects)), hook.parent);
  }

  function ServiceParent(services: seq<Row>, id: Option<int>): Option<int> {
    if id.None? || Find(services, id.value).None? then None else Find(services, id.value).value.parent
  }

  lemma ServiceParentOrg(services: seq<Row>, projects: seq<Row>, id: Option<int>)
    ensures OrgViaService(services, projects, id) == OrgIn(projects, ServiceParent(services, id))
  {
  }

  // `now` keeps every row of `before`, in place, and every organization that was set; nothing else
  // changes but, where `keys`, the storage key.
  ghost predicate OnlyFilled(before: seq<Row>, now: seq<Row>, keys: bool) {
    && |now| == |before|
    && forall i :: 0 <= i < |before| ==>
         && now[i] == before[i].(org := now[i].org, key := now[i].key)
         && (before[i].org.Some? ==> now[i].org == before[i].org)
         && (!keys || now[i].org.None? ==> now[i].key == before[i].key)
  }

  lemma BackfillOnlyFills(t: Tables, links: seq<Membership>, legacy: Legacy)
    ensures var r := Backfill(t, links, legacy);
            && OnlyFilled(t.projects, r.projects, false) && OnlyFilled(t.servers, r.servers, false) && OnlyFilled(t.s3, r.s3, true)
            && OnlyFilled(t.channels, r.channels, false) && OnlyFilled(t.crons, r.crons, false) && OnlyFilled(t.webhooks, r.webhooks, false)
            && r.services == t.services
  {
    hide Find, DefaultOrg, WorkspaceKey;
  }

  // `o:` and the decimal id of the organization.
  predicate KeyNames(key: string, org: int) {
    && |key| > 2 && key[0] == 'o' && key[1] == ':'
    && if org >= 0 then IsNumeral(key[2..]) && Value(key[2..]) == org
       else key[2] == '-' && IsNumeral(key[3..]) && Value(key[3..]) == -org
  }

  lemma WorkspaceKeyNames(org: int)
    ensures KeyNames(WorkspaceKey(org), org)
  {
    var key := WorkspaceKey(org);
    if org >= 0 {
      DigitsReadBack(org);
      assert key[2..] == Digits(org);
    } else {
      DigitsReadBack(-org);
      assert key[3..] == Digits(-org);
    }
  }

  lemma KeyNamesOne(key: string, a: int, b: int)
    requires KeyNames(key, a) && KeyNames(key, b)
    ensures a == b
  {
    if (a >= 0) != (b >= 0) {
      MinusIsNoDigit(key[2..]);
    }
  }

  lemma MinusIsNoDigit(s: string)
    requires IsNumeral(s)
    ensures s[0] != '-'
  {
  }

  // After the pass a key names its organization, and no other.
  lemma S3KeysMatch(t: Tables, links: seq<Membership>, legacy: Legacy, i: nat, j: nat)
    requires i < |t.s3| && j < |t.s3|
    ensures var r := Backfill(t, links, legacy).s3;
            && (r[i].org.Some? ==> KeyNames(r[i].key, r[i].org.value))
            && (r[i].org.Some? && r[j].org.Some? && r[i].key == r[j].key ==> r[i].org == r[j].org)
  {
    hide DefaultOrg, KeyNames, WorkspaceKey;
    var r := Backfill(t, links, legacy).s3;
    if r[i].org.Some? {
      WorkspaceKeyNames(r[i].org.value);
    }
    if r[i].org.Some? && r[j].org.Some? && r[i].key == r[j].key {
      WorkspaceKeyNames(r[j].org.value);
      KeyNamesOne(r[i].key, r[i].org.value, r[j].org.value);
    }
  }

  predicate NoNewColumns(later: Legacy, legacy: Legacy) {
    && (later.projects ==> legacy.projects) && (later.servers ==> legacy.servers)
    && (later.s3 ==> legacy.s3) && (later.webhooks ==> legacy.webhooks)
  }

  // A second pass changes nothing, also when user columns were dropped in between.
  lemma BackfillIsFixpoint(t: Tables, links: seq<Membership>, legacy: Legacy, later: Legacy)
    requires NoNewColumns(later, legacy)
    ensures Backfill(Backfill(t, links, legacy), links, later) == Backfill(t, links, legacy)
  {
    hide Find, DefaultOrg, WorkspaceKey;
    var r := Backfill(t, links, legacy);
    assert Each(r.projects, ByUser(links, later.projects)) == r.projects;
    assert Each(r.servers, ByUser(links, later.servers)) == r.servers;
    assert Each(Each(r.s3, S3ByUser(links, later.s3)), RepairKey()) == r.s3;
    assert Each(r.channels, ByServer(r.servers)) == r.channels;
    assert Each(r.crons, ByServer(r.servers)) == r.crons;
    assert Each(r.webhooks, ByService(r.services, r.projects, links, later.webhooks)) == r.webhooks;
  }
}

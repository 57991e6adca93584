// Workspace permissions of organization members: what a membership allows, how patches of the
// stored denials compose, and the two gates that check a request's required areas.
module WorkspacePermissions {
  import opened Wrappers

  datatype Area =
    | Projects | ProjectsView | ProjectsAdd | ProjectsDelete
    | RemoteServer | RemoteServerTerminal | RemoteServerDockerManager | RemoteServerTest
    | RemoteServerAdd | RemoteServerEdit | RemoteServerDelete | RemoteServerInstallMaintenance
    | Domains | DomainsCertificateEmail | DomainsAdd
    | Webhooks | WebhooksAdd | WebhooksEdit | WebhooksLogs | WebhooksRun | WebhooksDelete
    | CronJobs | CronJobsAdd | CronJobsEdit | CronJobsLogs | CronJobsRun | CronJobsDelete
    | Notifications | NotificationsAdd | NotificationsEdit | NotificationsTest
    | S3 | S3Browse | S3Add | S3Edit
    | Registry | RegistryAdd | RegistryEdit | RegistryDelete | RegistryTest
    | Git | GitAdd | GitEdit | GitDelete | GitProviders
    | Management | ManagementOverview | ManagementAuditLog | ManagementMembers
    | ManagementPermissions | ManagementSettings

  // A key of the stored or patched object; other keys are carried along.
  datatype Key = Known(area: Area) | Other(name: string)

  type Denials = map<Key, bool>

  datatype Membership = Membership(owner: bool, permissions: Option<Denials>)

  // A key may be present without a boolean value.
  type Patch = map<Key, Option<bool>>

  function Parent(a: Area): Option<Area> {
    match a
    case ProjectsView | ProjectsAdd | ProjectsDelete => Some(Projects)
    case RemoteServerTerminal | RemoteServerDockerManager | RemoteServerTest | RemoteServerAdd => Some(RemoteServer)
    case RemoteServerEdit | RemoteServerDelete | RemoteServerInstallMaintenance => Some(RemoteServer)
    case DomainsCertificateEmail | DomainsAdd => Some(Domains)
    case WebhooksAdd | WebhooksEdit | WebhooksLogs | WebhooksRun | WebhooksDelete => Some(Webhooks)
    case CronJobsAdd | CronJobsEdit | CronJobsLogs | CronJobsRun | CronJobsDelete => Some(CronJobs)
    case NotificationsAdd | NotificationsEdit | NotificationsTest => Some(Notifications)
    case S3Browse | S3Add | S3Edit => Some(S3)
    case RegistryAdd | RegistryEdit | RegistryDelete | RegistryTest => Some(Registry)
    case GitAdd | GitEdit | GitDelete | GitProviders => Some(Git)
    case ManagementOverview | ManagementAuditLog | ManagementMembers | ManagementPermissions | ManagementSettings => Some(Management)
    case _ => None
  }

  // Areas nest one level deep.
  lemma ParentIsTop(a: Area)
    ensures Parent(a).Some? ==> Parent(Parent(a).value).None?
  {
  }

  function Depth(a: Area): nat {
    if Parent(a).Some? then 1 else 0
  }

  predicate Denied(p: Option<Denials>, a: Area) {
    p.Some? && Known(a) in p.value && p.value[Known(a)] == false
  }

  predicate Allows(m: Membership, a: Area)
    decreases Depth(a)
  {
    m.owner ||
    if Parent(a).Some? then
      ParentIsTop(a);
      Allows(m, Parent(a).value) && !Denied(m.permissions, a)
    else !Denied(m.permissions, a)
  }

  predicate HasOrgServerAccess(m: Membership) {
    m.owner || Allows(m, RemoteServer) || Allows(m, Domains)
  }

  // An area is allowed exactly when neither it nor the area above it is denied.
  lemma {:induction false} AllowsExact(m: Membership, a: Area)
    ensures Allows(m, a) <==> m.owner || (!Denied(m.permissions, a) && (Parent(a).Some? ==> !Denied(m.permissions, Parent(a).value)))
  {
    hide Parent;
    ParentIsTop(a);
    if Parent(a).Some? {
      assert Allows(m, Parent(a).value) <==> m.owner || !Denied(m.permissions, Parent(a).value);
    }
  }

  lemma SubImpliesParent(m: Membership, a: Area)
    requires Allows(m, a) && Parent(a).Some?
    ensures Allows(m, Parent(a).value)
  {
    hide Parent;
    ParentIsTop(a);
  }

  // ----- patches -------------------------------------------------------------

  // What a patch says about a key: only known areas with a boolean count.
  function Said(p: Patch, k: Key): Option<bool> {
    if k.Known? && k in p then p[k] else None
  }

  predicate Says(p: Patch, k: Key, allowed: bool) {
    Said(p, k).Some? && Said(p, k).value == allowed
  }

  function Base(existing: Option<Denials>): Denials {
    if existing.Some? then existing.value else map[]
  }

  function Merged(base: Denials, p: Patch): (r: Denials)
    ensures forall k :: k in r <==> Says(p, k, false) || (Said(p, k).None? && k in base)
    ensures forall k :: k in r ==> r[k] == if Says(p, k, false) then false else base[k]
  {
    map k | k in base.Keys + p.Keys && !Says(p, k, true) && (k in base || Says(p, k, false)) ::
      if Says(p, k, false) then false else base[k]
  }

  // `true` removes a denial, `false` adds one; an empty object is stored as null.
  function Merge(existing: Option<Denials>, p: Patch): Option<Denials> {
    var merged := Merged(Base(existing), p);
    if merged == map[] then None else Some(merged)
  }

  // `q` where it says something, else `p`.
  function Overridden(p: Patch, q: Patch): Patch {
    map k | k in p.Keys + q.Keys :: if Said(q, k).Some? then Said(q, k) else Said(p, k)
  }

  lemma MergeAt(existing: Option<Denials>, p: Patch, k: Key)
    ensures var r := Base(Merge(existing, p));
            && (k in r <==> Says(p, k, false) || (Said(p, k).None? && k in Base(existing)))
            && (k in r ==> r[k] == if Says(p, k, false) then false else Base(existing)[k])
  {
    var merged := Merged(Base(existing), p);
    if k in merged {
      assert merged != map[];
    }
  }

  lemma BaseDetermines(a: Option<Denials>, b: Option<Denials>)
    requires a != Some(map[]) && b != Some(map[]) && Base(a) == Base(b)
    ensures a == b
  {
  }

  // Two patches in a row are one patch, the later one winning.
  lemma PatchesCompose(existing: Option<Denials>, p: Patch, q: Patch)
    ensures Merge(Merge(existing, p), q) == Merge(existing, Overridden(p, q))
  {
    var once, twice := Merge(existing, Overridden(p, q)), Merge(Merge(existing, p), q);
    forall k: Key ensures (k in Base(once) <==> k in Base(twice)) && (k in Base(once) ==> Base(once)[k] == Base(twice)[k]) {
      assert Said(Overridden(p, q), k) == if Said(q, k).Some? then Said(q, k) else Said(p, k);
      hide Merge, Overridden, Said;
      MergeAt(existing, p, k);
      MergeAt(Merge(existing, p), q, k);
      MergeAt(existing, Overridden(p, q), k);
    }
    assert Base(once) == Base(twice);
    BaseDetermines(once, twice);
  }

  // What a patch does to access: an area it speaks of follows the patch, any other keeps its own
  // denial, and either way the area above must be allowed.
  lemma PatchEffect(m: Membership, p: Patch, a: Area)
    ensures var after := m.(permissions := Merge(m.permissions, p));
            && (Denied(after.permissions, a) <==>
                  Says(p, Known(a), false) || (Said(p, Known(a)).None? && Denied(m.permissions, a)))
            && (Said(p, Known(a)).None? && (Parent(a).Some? ==> Said(p, Known(Parent(a).value)).None?) ==>
                  Allows(after, a) == Allows(m, a))
  {
    hide Merge, Said, Parent, Allows;
    MergeAt(m.permissions, p, Known(a));
    var after := m.(permissions := Merge(m.permissions, p));
    AllowsExact(m, a);
    AllowsExact(after, a);
    if Parent(a).Some? {
      MergeAt(m.permissions, p, Known(Parent(a).value));
    }
  }

  // ----- the effective matrix ------------------------------------------------

  function AllAreas(): (r: set<Area>)
    ensures forall a: Area :: a in r
  {
    set a: Area | Depth(a) <= 1
  }

  ghost predicate IsMatrix(m: Membership, matrix: map<Area, bool>) {
    forall a: Area :: a in matrix && matrix[a] == Allows(m, a)
  }

  method EffectiveWorkspacePermissions(m: Membership) returns (matrix: map<Area, bool>)
    ensures IsMatrix(m, matrix)
  {
    hide Allows;
    matrix := map[];
    var rest := AllAreas();
    while rest != {}
      invariant forall a: Area :: a !in rest ==> a in matrix && matrix[a] == Allows(m, a)
      decreases rest
    {
      var key :| key in rest;
      matrix := matrix[key := Allows(m, key)];
      rest := rest - {key};
    }
  }

  function AsPatch(matrix: map<Area, bool>): Patch {
    map k: Key | k in (set a | a in matrix :: Known(a)) :: Some(matrix[k.area])
  }

  // Saving the matrix a member sees, onto an empty record, gives the member the same access.
  lemma MatrixRoundTrip(m: Membership, matrix: map<Area, bool>, a: Area)
    requires !m.owner && IsMatrix(m, matrix)
    ensures Allows(Membership(false, Merge(None, AsPatch(matrix))), a) == Allows(m, a)
  {
    var p := AsPatch(matrix);
    forall b: Area ensures Said(p, Known(b)) == Some(Allows(m, b)) {
      assert Known(b) in p;
    }
    hide Merge, Said, Parent, Allows, AsPatch;
    var n := Membership(false, None);
    PatchEffect(n, p, a);
    AllowsExact(Membership(false, Merge(None, p)), a);
    AllowsExact(m, a);
    if Parent(a).Some? {
      PatchEffect(n, p, Parent(a).value);
      AllowsExact(m, Parent(a).value);
    }
  }

  method MergeWorkspacePermissionPatch(existing: Option<Denials>, patch: Patch) returns (r: Option<Denials>)
    ensures r == Merge(existing, patch)
  {
    var base := Base(existing);
    var rest := patch.Keys;
    while rest != {}
      invariant rest <= patch.Keys
      invariant forall k :: k in base <==>
        if k in rest then k in Base(existing) else Says(patch, k, false) || (Said(patch, k).None? && k in Base(existing))
      invariant forall k :: k in base ==> base[k] == if k !in rest && Says(patch, k, false) then false else Base(existing)[k]
      decreases rest
    {
      var rawKey :| rawKey in rest;
      assert forall k :: Said(patch, k).Some? ==> k in patch.Keys;
      rest := rest - {rawKey};
      if rawKey.Other? {
        continue;
      }
      if Says(patch, rawKey, true) {
        base := base - {rawKey};
      } else if Says(patch, rawKey, false) {
        base := base[rawKey := false];
      }
    }
    r := if base == map[] then None else Some(base);
    forall k: Key ensures (k in Base(r) <==> k in Base(Merge(existing, patch))) && (k in Base(r) ==> Base(r)[k] == Base(Merge(existing, patch))[k]) {
      MergeAt(existing, patch, k);
    }
    assert Base(r) == Base(Merge(existing, patch));
  }

  // ----- the two gates -------------------------------------------------------

  datatype Options = Options(area: Option<Area>, all: seq<Area>, servers: bool, any: Option<seq<Area>>)

  datatype Refusal = AreaRefused | ServersRefused

  ghost predicate AllAllowed(m: Membership, o: Options) {
    && (o.area.Some? ==> Allows(m, o.area.value))
    && forall a :: a in o.all ==> Allows(m, a)
  }

  ghost predicate AnyAllowed(m: Membership, o: Options) {
    o.any.Some? && o.any.value != [] ==> exists a :: a in o.any.value && Allows(m, a)
  }

  // Which refusal, if any, a request's options meet.
  ghost function Gate(m: Membership, o: Options): Option<Refusal> {
    if !AllAllowed(m, o) then Some(AreaRefused)
    else if o.servers && !HasOrgServerAccess(m) then Some(ServersRefused)
    else if !AnyAllowed(m, o) then Some(AreaRefused)
    else None
  }

  method SomeAllowed(m: Membership, areas: seq<Area>) returns (ok: bool)
    ensures ok <==> exists a :: a in areas && Allows(m, a)
  {
    hide Allows;
    for i := 0 to |areas|
      invariant forall k :: 0 <= k < i ==> !Allows(m, areas[k])
    {
      if Allows(m, areas[i]) {
        assert areas[i] in areas;
        return true;
      }
    }
    return false;
  }

  // The gate of the workspace services: a set of areas, each checked once.
  method AssertMembershipMatchesWorkspaceOptions(m: Membership, o: Options) returns (refusal: Option<Refusal>)
    ensures refusal == Gate(m, o)
  {
    hide Allows;
    var areasToCheck: set<Area> := {};
    if o.area.Some? {
      areasToCheck := areasToCheck + {o.area.value};
    }
    for i := 0 to |o.all|
      invariant forall a :: a in areasToCheck <==> (o.area.Some? && a == o.area.value) || a in o.all[..i]
    {
      areasToCheck := areasToCheck + {o.all[i]};
    }
    var rest := areasToCheck;
    while rest != {}
      invariant rest <= areasToCheck && forall a :: a in areasToCheck - rest ==> Allows(m, a)
      decreases rest
    {
      var area :| area in rest;
      if !Allows(m, area) {
        return Some(AreaRefused);
      }
      rest := rest - {area};
    }
    if o.servers && !HasOrgServerAccess(m) {
      return Some(ServersRefused);
    }
    if o.any.Some? && |o.any.value| > 0 {
      var ok := SomeAllowed(m, o.any.value);
      if !ok {
        return Some(AreaRefused);
      }
    }
    return None;
  }

  // The gate of requireMemberContext: the same options, in sequence.
  method RequireMemberContextGate(m: Membership, o: Options) returns (refusal: Option<Refusal>)
    ensures refusal == Gate(m, o)
  {
    hide Allows;
    if o.area.Some? && !Allows(m, o.area.value) {
      return Some(AreaRefused);
    }
    for i := 0 to |o.all|
      invariant forall k :: 0 <= k < i ==> Allows(m, o.all[k])
    {
      if !Allows(m, o.all[i]) {
        return Some(AreaRefused);
      }
    }
    if o.servers && !HasOrgServerAccess(m) {
      return Some(ServersRefused);
    }
    if o.any.Some? && |o.any.value| > 0 {
      var ok := SomeAllowed(m, o.any.value);
      if !ok {
        return Some(AreaRefused);
      }
    }
    return None;
  }

  // A patch that only grants never closes a gate, and an owner passes every gate.
  lemma GrantsKeepGatesOpen(m: Membership, p: Patch, o: Options)
    requires forall k :: k in p ==> p[k] != Some(false)
    requires Gate(m, o).None?
    ensures Gate(m.(permissions := Merge(m.permissions, p)), o).None?
  {
    var after := m.(permissions := Merge(m.permissions, p));
    forall a | Allows(m, a) ensures Allows(after, a) {
      StaysAllowed(m, p, a);
    }
    hide Allows, Merge;
    if o.any.Some? && o.any.value != [] {
      var a :| a in o.any.value && Allows(m, a);
      assert Allows(after, a);
    }
  }

  lemma StaysAllowed(m: Membership, p: Patch, a: Area)
    requires (forall k :: k in p ==> p[k] != Some(false)) && Allows(m, a)
    ensures Allows(m.(permissions := Merge(m.permissions, p)), a)
  {
    assert forall k :: k in p && p[k].Some? ==> p[k].value;
    assert forall k :: !Says(p, k, false);
    hide Allows, Merge, Said, Parent;
    AllowsExact(m, a);
    AllowsExact(m.(permissions := Merge(m.permissions, p)), a);
    PatchEffect(m, p, a);
    if Parent(a).Some? {
      PatchEffect(m, p, Parent(a).value);
    }
  }

  lemma OwnersPass(m: Membership, o: Options)
    requires m.owner
    ensures Gate(m, o).None?
  {
    if o.any.Some? && o.any.value != [] {
      assert o.any.value[0] in o.any.value && Allows(m, o.any.value[0]);
    }
  }
}

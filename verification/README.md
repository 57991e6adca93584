# Verified model of the Weehawk API's stateful and text-rewriting core

A Dafny 4.11 project that models the parts of `apps/api` whose behaviour is hard to see from one
function body, and proves what they promise. `dafny verify dfyconfig.toml` checks everything.

## What is modelled

**Compose rewriting.** A line is its leading whitespace, its trimmed body and its trailing
whitespace; every index loop of the rewriters is the first line a probe hits (`LineScan`).
`ComposeNetworks`, `ComposeAttach`, `ComposePipeline` and `ComposeCarriage` treat the attach
pipeline on lines and on texts, `ComposeTraefik` and `ComposeInjection` the label injection,
`ComposeDependsOn` and `ComposeDependsOnText` the rewrite of map-form `depends_on`, `ComposeVolumes`
and `ComposeMounts` the volume pass. `ComposeOptions` and `ComposeLabels` say what is written, line by
line. `ComposeExamples`, `ComposeDriverExample` and `ComposeVolumeExamples` are concrete files on which
the exact conditions fail. `ComposeRewriter` and `ComposeVolumeRewriter` hold the loops themselves,
proved against those functions; `ComposeText` does the splitting, joining and trimming and
`ComposeSimilar` shows what whitespace no scan sees.

**Organizations.** `OrgSpec` gives each service operation as a function on the membership table,
`OrgInvariants` and `OrgAccountDeletion` the theorems about every run, `OrgEffects` what each operation
changes and when it refuses, told from the tables alone, `OrgService` the repository and
service classes, with a history of the table after every single write.

**Redirects.** `Redirects` has one specification of a redirect chain and both loops, the Git
client's and the registry client's; `RedirectRequests` says what a chain sends and how it ends.
Responses, validation and URL resolution are arbitrary functions.

**Remote scripts.** `ShellReader` is a reader for the part of the POSIX shell command language
(XCU chapter 2 of POSIX.1-2017) the generated scripts use; `RemoteScripts` proves what it reads back and
`NotificationVars` which variable each entry of a notification channel ends in.

**Startup migrations.** `OrgFanOut` is the fan-out from users to organizations, shared by the Git
settings and the registry accounts; `OrgScopeBackfill` the backfill of organization ids.

**Git accounts.** `GitAccounts` specifies which account is active and proves it over every run,
`GitAccountRows` what the accounts hold; `GitService` is the service, one read or write at a time.

**Two asynchronous protocols.** `SecretsCache` and `ProvisionWorker` are state machines with one step
per stretch between two awaits, so that every interleaving is a run; their classes hold the code of
each stretch. `CacheProgress` and `WorkerProgress` show that callers are served and the queue drains.

**Smaller companions.** `CronFields` (with `Decimal`), `WorkspacePermissions` and `WorkspaceAreas`.

## Where the code does not do what it seems to promise

- When no key follows the root networks (no `volumes:` behind them, say), the external network is
  inserted between `weehawk-internal:` and its driver option, so the option ends under the external
  network and the internal one has none (`DriverExact`; `DriverExample`).
- The legacy `owner_id` column is synchronised before the leaver's row is deleted, so it keeps naming
  a leaver whose successor has a larger id; after a later re-join and a restart the start-up pass turns
  that stale value into an owner role (`LeaveSync`, `StaleOwnerReturns`; `StaleOwnerExample`).
- An external network named `services`, declared above the services section, becomes the header
  every later scan finds (`ShadowingExact`; `ShadowingExample`). A name the scan of declared networks
  cannot read, such as one that starts with a digit, is declared anew on every run
  (`AttachAllIdempotent`, `AttachTextIdempotentExact`).
- On texts with a line that ends in several carriage returns before its line break the attach pipeline
  and the `depends_on` rewrite (more than one) and the injection (more than two) change the text again
  (`AttachTextIdempotentExact`, `RewriteTextIdempotentExact`, `InjectTextIdempotentExact`;
  `AttachStrayExample`, `StrayCRExample`, `InjectStrayExample`).
- A `depends_on: {}` header that has children can be taken for a key by the second run
  (`RewriteIdempotent`; `TrapExample`); a block with an inline value comes out half list, half map
  (`MixedBlock`; `MixedBlockExample`).
- The volume scan counts bare keys of later root sections as volumes and stops at the first root line
  with a value, so a mount can stay undeclared; entries appended to a file whose `volumes:` is not last
  land in another section, and an empty `volumes:` gets a second header (`VolumesDeclaredExact`,
  `LandsExact`, `SecondHeaderExact`; `UndeclaredExample`, `MisplacedExample`, `TwoHeadersExample`).
- The fan-out calls itself idempotent, and is, but not restartable: a process that dies between an
  update and its inserts leaves organizations without their copy (`RestartLosesCopies`;
  `RestartExample`). "One settings row per organization" fails, and with it the unique index, as soon
  as two source rows stand for the same organization (`UniqueIndexExact`; `UniqueIndexExample`).
- Output callbacks do not await their log update, so one that lands after the final write puts the
  untrimmed buffer back (`FinalLogExact`; `LateLogOverLimit`). A limit equal to the buffer size drops
  the truncation marker (`TrimSeesWholeStream`; `MarkerLostExample`).
- A mutation drops the cached secret list but not a fetch under way, whose older list is cached and
  served afterwards (`MutationExact`; `StaleAfterMutation`).
- After a 303, for which section 15.4.4 of RFC 9110 asks for GET or HEAD, the webhook clients' DELETE is
  sent again as DELETE when the target is on the same origin (`SeeOtherExact`; `DeleteStaysDelete`).

## How sources of uncertainty enter

Clocks are positions in a global order of writes (rows are taken to have distinct timestamps) or
arguments of events. Random ids are arguments required to be unused. Responses of remote hosts, URL
validation, encryption and the outcome of SSH commands are arbitrary functions or events. Service
operations on organizations and Git accounts run one at a time; what holds between their single writes
is stated through the recorded history.

## Model

| member | source | states |
|---|---|---|
| ComposeNetworks.AttachOneAttaches | apps/api/src/executor/compose-traefik-inject.ts:141-169 | After one service is attached to a network, its block has a `networks:` line with an item for that network below it. |
| ComposeNetworks.AttachOneKeeps | apps/api/src/executor/compose-traefik-inject.ts:141-169 | Attaching one service detaches none, keeps the service list and the declared networks, and only inserts lines. |
| ComposeNetworks.AttachNetAttaches | apps/api/src/executor/compose-traefik-inject.ts:272-287 | After the loop over a file's services every listed service is attached to the network, and everything attached or declared before still is. |
| ComposeNetworks.DeclareDeclares | apps/api/src/executor/compose-traefik-inject.ts:228-245 | A declared network is found again by the scan of root `networks:`, wherever the insertion point fell, exactly when the scan reads its name. |
| ComposeNetworks.DeclareKeeps | apps/api/src/executor/compose-traefik-inject.ts:228-245 | Declaring a root network keeps services, attachments and earlier declarations, provided a network named `services` does not land above the services header. |
| ComposeAttach.AttachAllAttaches | apps/api/src/executor/compose-traefik-inject.ts:292-309 | For a file with a root services section and any external network that does not shadow it, the pipeline leaves every service on both networks and the internal one declared; the scan finds the external one declared exactly when it reads the name; the service list, earlier attachments and earlier declarations survive and the input lines are an ordered subsequence of the output. |
| ComposeAttach.AttachAllIdempotent | apps/api/src/executor/compose-traefik-inject.ts:292-309 | On lines, running the pipeline twice equals running it once exactly when the external network's name can be read back by the code's own scanner. |
| ComposeAttach.ShadowingExact | apps/api/src/executor/compose-traefik-inject.ts:228-245 | The services header stays the root one exactly when the external network is not a network named `services` declared above it. |
| ComposeExamples.ShadowingExample | apps/api/src/executor/compose-traefik-inject.ts:228-245 | A concrete file with root volumes first, whose services section is no longer a root one after attaching an external network named `services`. |
| ComposeOptions.DriverExact | apps/api/src/executor/compose-traefik-inject.ts:190-258 | For a file that does not declare `weehawk-internal` yet, the finished lines declare it once the scan can find it, and its `driver: overlay` or `driver: bridge` stands right below it exactly when the external network needs no declaration or a key stands at or below the place where root networks go; otherwise the external network is declared between the two and the driver ends among its options. |
| ComposeOptions.ExternalDeclared | apps/api/src/executor/compose-traefik-inject.ts:260-269 | An external network the scan does not know yet is declared in the finished lines with `external: true` and `name:` under its own key, in one piece. |
| ComposeDriverExample.DriverExample | apps/api/src/executor/compose-traefik-inject.ts:292-309 | The whole result text, for each driver, of a file with one service and neither networks nor volumes: the driver line ends under the external network. |
| ComposeCarriage.AttachTextResult | apps/api/src/executor/compose-traefik-inject.ts:292-309 | The returned text is the finished file, which keeps everything the input had; split into lines again it looks the same to every scanner, every service is on both networks, and nothing is left to do exactly when the scan reads the external name. |
| ComposeCarriage.AttachTextIdempotentExact | apps/api/src/executor/compose-traefik-inject.ts:363-380 | On texts, attaching twice returns the same text as attaching once exactly when there is nothing to do, or the scan reads the external name and no line but the last ends in more than one carriage return. |
| ComposeExamples.AttachStrayExample | apps/api/src/executor/compose-traefik-inject.ts:292-309 | A concrete text with two carriage returns before a line break that changes again on the second run. |
| ComposeSimilar.SimilarSettled | apps/api/src/executor/compose-traefik-inject.ts:308-308 | What the scanners find does not depend on trailing blank lines or on whitespace after the last character of a line, so the final trim loses nothing. |
| ComposeCarriage.SplitJoinAny | apps/api/src/executor/compose-traefik-inject.ts:370-379 | Splitting joined lines gives the same lines back, each but the last without one carriage return at its end. |
| ComposeText.SplitJoin | apps/api/src/executor/compose-traefik-inject.ts:299-308 | Splitting joined lines at line breaks gives the same lines back when none carries a break or a stray carriage return. |
| ComposeText.TrimEndJoin | apps/api/src/executor/compose-traefik-inject.ts:308-308 | Trimming the end of the joined text drops exactly the blank lines at the end and the whitespace after the last word. |
| ComposeTraefik.EscapeReadsBack | apps/api/src/executor/compose-traefik-inject.ts:22-24 | A double-quoted reader gets every label value back from its escaped form, quotes and backslashes included. |
| ComposeTraefik.OneLinePerPort | apps/api/src/executor/compose-traefik-inject.ts:35-61 | Among the label lines each port named by a route has exactly one load-balancer line, and no other port has one. |
| ComposeLabels.DeployBlockReads | apps/api/src/executor/compose-traefik-inject.ts:26-78 | Read as YAML, the deploy block has the fixed lines, enables Traefik on the network, and holds for every route its rule unescaped, the entrypoint of its scheme, the load balancer of its port and, for HTTPS only, the certificate resolver. |
| ComposeTraefik.InjectLinesResult | apps/api/src/executor/compose-traefik-inject.ts:415-423 | Inserting the label block in the target service keeps services, attachments and declarations, only inserts lines, and leaves the target enabled. |
| ComposeInjection.InjectTextResult | apps/api/src/executor/compose-traefik-inject.ts:385-426 | The injected text is the attached file with the label block in the target's block, which keeps services, attachments and declarations, or the input unchanged when there is no such service. |
| ComposeInjection.InjectListedTarget | apps/api/src/executor/compose-traefik-inject.ts:385-426 | For a listed service the block found lies inside the services section, and so does the block that carries the enable label in the result. |
| ComposeInjection.InjectTextIdempotentExact | apps/api/src/executor/compose-traefik-inject.ts:385-426 | Injecting twice with the same options returns the same text as injecting once exactly when there is nothing to inject or no line but the last ends in more than two carriage returns. |
| ComposeExamples.InjectStrayExample | apps/api/src/executor/compose-traefik-inject.ts:385-426 | A concrete text with three carriage returns before a line break that changes again on the second injection. |
| ComposeRewriter.FindServicesSection | apps/api/src/executor/compose-traefik-inject.ts:80-89 | The loop returns the first services header and its indent, or nothing when there is none. |
| ComposeRewriter.FindServiceBlockRange | apps/api/src/executor/compose-traefik-inject.ts:91-128 | The two loops return the first line of the named block, its end (next sibling or end of the section) and the child indent. |
| ComposeRewriter.ServiceBlockHasTraefikEnable | apps/api/src/executor/compose-traefik-inject.ts:130-139 | True exactly when a line of the block contains the enable label, in any case and spacing. |
| ComposeRewriter.EnsureServiceNetworkAttached | apps/api/src/executor/compose-traefik-inject.ts:141-169 | The in-place edit of lines and block end computes the attachment the lemmas reason about. |
| ComposeRewriter.ListComposeServiceNames | apps/api/src/executor/compose-traefik-inject.ts:171-188 | The loop lists the service names of the section, in order. |
| ComposeRewriter.FindNetworksSectionBounds | apps/api/src/executor/compose-traefik-inject.ts:190-218 | The nested loops return the header, the insertion index and the set of declared names of root `networks:`. |
| ComposeRewriter.EnsureNetworkDeclared | apps/api/src/executor/compose-traefik-inject.ts:228-245 | The splice into the section, or before volumes with a new header, computes the declaration the lemmas reason about. |
| ComposeRewriter.AttachAllServicesToStackNetwork | apps/api/src/executor/compose-traefik-inject.ts:272-287 | The loop that looks every header up again after each insertion attaches the services listed before it started. |
| ComposeRewriter.AttachAllServicesToWeehawkNetworks | apps/api/src/executor/compose-traefik-inject.ts:292-380 | Both text entry points (overlay or bridge) compute the text the pipeline lemmas speak of. |
| ComposeRewriter.BuildTraefikLabelEntries | apps/api/src/executor/compose-traefik-inject.ts:26-63 | Pushing label lines while the set of ports grows yields the label block. |
| ComposeRewriter.InjectTraefikIntoComposeYaml | apps/api/src/executor/compose-traefik-inject.ts:385-426 | The whole injection computes the text the injection lemmas speak of, with all early returns. |
| ComposeDependsOn.ScanBelow | apps/api/src/executor/compose-depends-on-normalize.ts:24-55 | The inner two-index loop returns the end of the block, its keys in order, and whether a list was seen. |
| ComposeDependsOn.EnsureDependsOnList | apps/api/src/executor/compose-depends-on-normalize.ts:13-78 | The outer loop over the lines terminates and computes the rewritten lines. |
| ComposeDependsOnText.EnsureComposeDependsOnListForSwarm | apps/api/src/executor/compose-depends-on-normalize.ts:9-81 | Splitting the text, rewriting its lines and joining them computes the text the text lemmas speak of. |
| ComposeDependsOn.ScanReadsKeys | apps/api/src/executor/compose-depends-on-normalize.ts:28-52 | A scan that ends in names read exactly the keys of the lines it consumed, in order; those lines all belong to the block and the next significant line does not. |
| ComposeDependsOn.RewriteByPieces | apps/api/src/executor/compose-depends-on-normalize.ts:57-76 | The file is cut into lines that stay and map blocks; the result copies the former and turns each block into a list of its keys in the same order. |
| ComposeDependsOn.RewriteIdempotent | apps/api/src/executor/compose-depends-on-normalize.ts:9-81 | On lines, rewriting twice equals rewriting once exactly when below no header the rewrite keeps the first line that is neither blank nor a comment is a `{}` header with a map block at the indent of a key, with no list item of the outer header further down its block. |
| ComposeDependsOn.AheadExact | apps/api/src/executor/compose-depends-on-normalize.ts:37-65 | A scan of the original lines that passes over rewritten blocks says whether the inner loop meets a list item in the rewritten ones. |
| ComposeDependsOn.TrapExample | apps/api/src/executor/compose-depends-on-normalize.ts:18-74 | A concrete file that the second run changes again, with both results. |
| ComposeDependsOnText.RewriteTextIdempotentExact | apps/api/src/executor/compose-depends-on-normalize.ts:9-81 | On texts, rewriting twice equals rewriting once exactly when that condition holds and no copied line but the last of the file ends in more than one carriage return. |
| ComposeDependsOnText.RewriteTextIdempotentNoBraces | apps/api/src/executor/compose-depends-on-normalize.ts:9-81 | On a text without `{}` headers only the condition on carriage returns of copied lines remains. |
| ComposeDependsOnText.StrayCRExample | apps/api/src/executor/compose-depends-on-normalize.ts:12-80 | A concrete text without any header that changes on both runs. |
| ComposeDependsOn.NoBracesNoTrap | apps/api/src/executor/compose-depends-on-normalize.ts:9-81 | Lines without `{}` headers hold no such place. |
| ComposeDependsOn.MixedBlock | apps/api/src/executor/compose-depends-on-normalize.ts:44-52 | The line below the list of a rewritten block is deeper than the header exactly when the scan stopped at a line deeper than the header; such a line is indented by one, or stands at the indent of the keys without being a key or a list item. |
| ComposeDependsOn.MixedBlockExample | apps/api/src/executor/compose-depends-on-normalize.ts:44-52 | A concrete file where that happens. |
| ComposeVolumes.VolumesDeclaredExact | apps/api/src/executor/compose-volume-normalize.ts:51-71 | After the pass the mounts in use are the same, earlier declarations stay, and every mount is declared exactly when it was before or the scan of root `volumes:` reaches the end of the file. |
| ComposeVolumes.VolumesIdempotentExact | apps/api/src/executor/compose-volume-normalize.ts:51-71 | A second pass is the identity exactly under that same condition. |
| ComposeVolumeExamples.UndeclaredExample | apps/api/src/executor/compose-volume-normalize.ts:51-71 | A concrete file with a root line with a value below root `volumes:`: its mount stays undeclared and is appended again on the next run. |
| ComposeVolumes.VolumesOnlyAppend | apps/api/src/executor/compose-volume-normalize.ts:66-70 | The input without trailing whitespace is a prefix of the result. |
| ComposeVolumes.LandsExact | apps/api/src/executor/compose-volume-normalize.ts:62-70 | The appended entries stand under a root `volumes:` line exactly when a header is appended with them or `volumes:` is the last root section. |
| ComposeVolumeExamples.MisplacedExample | apps/api/src/executor/compose-volume-normalize.ts:66-68 | A concrete file with `services:` below `volumes:`: the appended entry stands under `services:`. |
| ComposeVolumes.SecondHeaderExact | apps/api/src/executor/compose-volume-normalize.ts:66-70 | A file ends up with two root `volumes:` lines exactly when it had one that declared nothing. |
| ComposeVolumeExamples.TwoHeadersExample | apps/api/src/executor/compose-volume-normalize.ts:66-70 | A concrete file that ends in an empty root `volumes:` and gets a second one. |
| ComposeVolumes.EnsuredLines | apps/api/src/executor/compose-volume-normalize.ts:66-70 | Read back, the result is the input's lines followed by the appended lines. |
| ComposeMounts.MountExact | apps/api/src/executor/compose-volume-normalize.ts:6-22 | A line counts as a mount of a name exactly when it is a dash, whitespace, perhaps an opening quote, the name, a colon, and then a slash or the start of a variable. |
| ComposeVolumeRewriter.ExtractNamedVolumeMountsFromCompose | apps/api/src/executor/compose-volume-normalize.ts:10-22 | The loop returns the names in named mounts, each once, in sorted order. |
| ComposeVolumeRewriter.ExtractDeclaredTopLevelVolumes | apps/api/src/executor/compose-volume-normalize.ts:25-46 | The nested loops return the set of keys the scan of root `volumes:` counts. |
| ComposeVolumeRewriter.EnsureComposeNamedVolumesDeclared | apps/api/src/executor/compose-volume-normalize.ts:51-71 | The pass computes the text the volume lemmas speak of, for the sorted list of mounts. |
| OrgInvariants.StepKeepsInv | apps/api/src/organizations/organizations.service.ts:227-1206 | No operation, refused or not, leaves an organization that has members without an owner. |
| OrgInvariants.RunKeepsInv | apps/api/src/organizations/organizations.service.ts:227-1206 | In every run of create, add, leave, role change, removal, account deletion and the start-up pass, every organization that has members has an owner. |
| OrgInvariants.StepKeepsOwned | apps/api/src/organizations/organizations.service.ts:133-147 | Only a user's own account deletion can take away the last organization that user owns. |
| OrgInvariants.RunKeepsOwned | apps/api/src/organizations/organizations.service.ts:133-147 | The same over whole runs without that user's account deletion. |
| OrgEffects.RemoveMemberEffect | apps/api/src/organizations/organizations.service.ts:1021-1047 | After a removal the target has no seat in the organization, every other seat is as before, no other organization changes, and the legacy column changes only when an owner was removed, to the least owner left. |
| OrgEffects.RemoveMemberRefusals | apps/api/src/organizations/organizations.service.ts:991-1042 | A removal is refused exactly when the caller is no owner, the target is the caller, no member or the only owner, or would lose the last organization it owns; each with its kind of error. |
| OrgEffects.SetMemberRoleEffect | apps/api/src/organizations/organizations.service.ts:955-967 | After a role change the target has the asked-for role and its place in the order, every other seat and organization is as before, and the legacy column names the least owner. |
| OrgEffects.SetMemberRoleRefusals | apps/api/src/organizations/organizations.service.ts:895-966 | A role change is refused exactly for callers who are no owners, self-promotions, non-members, roles already held, the only owner, or an owner's last owned organization; each with its kind of error. |
| OrgEffects.AddMemberExact | apps/api/src/organizations/organizations.service.ts:1170-1186 | Joining fails exactly without organization or user, or with a seat already there; otherwise a plain seat is added behind all others and nothing else changes. |
| OrgEffects.CreateExact | apps/api/src/organizations/organizations.service.ts:227-243 | A creation adds one organization that was not there, named as asked, with the user as only member, owner and legacy owner; nothing else changes. |
| OrgEffects.LeaveRefusals | apps/api/src/organizations/organizations.service.ts:700-844 | A leave fails exactly without a seat, for the last owned organization (unless the account is deleted), or for the only member of the protected root organization. |
| OrgEffects.LeaveOrganizationRefusals | apps/api/src/organizations/organizations.service.ts:866-872 | The public endpoint is refused on the protected root organization whatever the role, and otherwise as a leave is. |
| OrgEffects.LeaveOutcome | apps/api/src/organizations/organizations.service.ts:707-843 | Which of the four outcomes is reported, from the seats alone. |
| OrgEffects.LeaveEffect | apps/api/src/organizations/organizations.service.ts:735-843 | The only member's leave takes the organization along; an only owner's makes the first other member to have joined an owner and changes no other seat; any other leave just removes the seat. |
| OrgEffects.BackfillExact | apps/api/src/organizations/organizations.service.ts:101-114 | After the start-up pass the owners are those who were owners and the members their organization's legacy column names; nothing else changes. |
| OrgAccountDeletion.PurgeIsAfter | apps/api/src/organizations/organizations.service.ts:851-864 | A completed account deletion has removed all of the user's seats, dissolved exactly the organizations the user was alone in, promoted the first other member to have joined where the user was last owner, and changed nothing else. |
| OrgAccountDeletion.PurgeDone | apps/api/src/organizations/organizations.service.ts:851-864 | The deletion loop completes exactly when the user is not the only member of the protected root organization. |
| OrgAccountDeletion.AfterLeave | apps/api/src/organizations/organizations.service.ts:700-844 | Leaving one organization first and deleting the account then has the same result as deleting it. |
| OrgAccountDeletion.LeaveSync | apps/api/src/organizations/organizations.service.ts:808-844 | After a leave the legacy owner column names the least owner, except exactly when the leaver was the only owner among several members and the first other member to have joined has a larger id. |
| OrgAccountDeletion.PromotionExact | apps/api/src/organizations/organizations.service.ts:772-843 | A leave that succeeds promotes a successor exactly when the leaver is the only owner among several members. |
| OrgAccountDeletion.StaleOwnerExample | apps/api/src/organizations/organizations.service.ts:808-843 | A concrete run: after the leave the column names the leaver, and after a re-join and a restart the leaver owns the organization again. |
| OrgAccountDeletion.RoleChangeSyncs | apps/api/src/organizations/organizations.service.ts:895-985 | After any role change the legacy column of that organization names the least owner, whatever it named before. |
| OrgAccountDeletion.RemovalSyncs | apps/api/src/organizations/organizations.service.ts:991-1065 | After the removal of an owner the legacy column names the least owner; other organizations stay in line. |
| OrgAccountDeletion.BackfillIdle | apps/api/src/organizations/organizations.service.ts:101-114 | The start-up pass changes nothing exactly when no legacy column names a plain member. |
| OrgAccountDeletion.StaleOwnerReturns | apps/api/src/organizations/organizations.service.ts:101-114 | A last owner who leaves to a successor with a larger id, is added back as a member and lives through a restart is an owner again. |
| OrgService.OrganizationsRepository.OrderByJoined | apps/api/src/organizations/organizations.repository.ts:51-65 | The listing holds every asked-for seat once, in the order of creation. |
| OrgService.OrganizationsService.SyncLegacyOwnerIdColumn | apps/api/src/organizations/organizations.service.ts:119-127 | The method aligns the legacy column with the least owner and nothing else; no write leaves an organization ownerless. |
| OrgService.OrganizationsService.Create | apps/api/src/organizations/organizations.service.ts:227-248 | The writes of a creation result in the specified table. |
| OrgService.OrganizationsService.AddMemberByUserId | apps/api/src/organizations/organizations.service.ts:1170-1206 | The method adds a plain member or fails with the specified error, and changes nothing when it fails. |
| OrgService.OrganizationsService.LeaveOrganizationAsUser | apps/api/src/organizations/organizations.service.ts:700-844 | Every branch (member, one of several owners, successor, last member, refusals) yields the specified table or error, and after every single write each organization that has members has an owner. |
| OrgService.OrganizationsService.RemoveUserFromAllOrganizationsForAccountDeletion | apps/api/src/organizations/organizations.service.ts:851-864 | The endless loop terminates and yields the specified table, or stops with the specified refusal. |
| OrgService.OrganizationsService.SetMemberRole | apps/api/src/organizations/organizations.service.ts:895-985 | Promotions and demotions yield the specified table or error, after every single write with an owner everywhere. |
| OrgService.OrganizationsService.RemoveMember | apps/api/src/organizations/organizations.service.ts:991-1065 | Removals yield the specified table or error, after every single write with an owner everywhere. |
| Redirects.FetchPinnedWithValidation | apps/api/src/git/git.service.ts:200-258 | The loop of the Git client sends the specified requests and has the specified outcome. |
| Redirects.RequestWithPinnedIp | apps/api/src/registry/registry.service.ts:112-171 | The separately written loop of the registry client sends the same requests with the same outcome. |
| RedirectRequests.FirstRequest | apps/api/src/git/git.service.ts:209-226 | The first request goes to the validated URL with the given method in upper case or GET, the given headers (names in lower case, the last of equal names), the given body exactly when the method is neither GET nor HEAD, and with it the given content length or that of the body. |
| RedirectRequests.EveryNextRequest | apps/api/src/git/git.service.ts:236-255 | Over a whole chain each request goes to the last location as resolved and validated; it repeats method, body and headers after 307, 308 or any redirect of a method other than POST on the first origin, and otherwise is what the tables of methods and dropped headers say. |
| RedirectRequests.ChainEnds | apps/api/src/git/git.service.ts:216-257 | With a whole limit (5 by default, 0 when negative) at most limit + 1 requests go out, every answer but the last is a redirect, and the outcome is what the last answer, its target and the limit say; nothing is sent exactly when the URL itself is refused. |
| Redirects.ChainBounded | apps/api/src/git/git.service.ts:216-256 | At most limit + 1 requests are sent, each to the accepted form of a validated URL. |
| Redirects.CredentialsStayHome | apps/api/src/git/git.service.ts:239-244 | From the first request to an origin other than the first one's on, no request carries a sensitive header or a body. |
| Redirects.StrippedForGood | apps/api/src/git/git.service.ts:190-198 | Once stripped, a chain stays stripped wherever it leads. |
| Redirects.VerbChain | apps/api/src/git/git.service.ts:236-255 | Over a whole chain any two requests in a row follow the method table of the redirect, and a changed method sends no body. |
| Redirects.PostBecomesGet | apps/api/src/git/git.service.ts:250-255 | A POST answered with 301, 302 or 303 is not sent again as POST. |
| Redirects.SeeOtherExact | apps/api/src/git/git.service.ts:236-255 | After a 303 the next request of a chain has GET or HEAD exactly when the last one had, when it was a POST, or when the target left the first origin. |
| Redirects.DeleteStaysDelete | apps/api/src/git/git.service.ts:1513-1523 | A concrete chain: a DELETE answered with 303 on the same origin is sent again as DELETE. |
| Redirects.FinalThrowUnreachable | apps/api/src/git/git.service.ts:210-257 | With the default limit, which every caller uses, or any whole limit, the throw behind the loop is never reached. |
| Redirects.FinalThrowExact | apps/api/src/git/git.service.ts:256-257 | Among limits a caller could set, the throw behind the loop can be reached exactly with those that are not whole numbers. |
| RemoteScripts.QuotesReadBack | apps/api/src/common/remote-wrapped-script-install.ts:72-79 | A shell word made by either quoting form reads back as the quoted value, whatever characters it holds. |
| RemoteScripts.ReadDoubledQuote | apps/api/src/common/on-host-redeploy-script.ts:16-18 | The form that puts the quote between double quotes reads back as one quote followed by the rest of the word. |
| RemoteScripts.EnvFileReadsBack | apps/api/src/common/remote-wrapped-script-install.ts:77-79 | Sourcing an env file gives back every variable with its value, in order. |
| RemoteScripts.HereReadsBack | apps/api/src/common/remote-wrapped-script-install.ts:379-385 | A document comes back whole from a here-document exactly when none of its lines is the delimiter. |
| RemoteScripts.BuildInstallScript | apps/api/src/common/remote-wrapped-script-install.ts:242-388 | The pushes and the final join produce the specified script. |
| RemoteScripts.InstallWrites | apps/api/src/common/remote-wrapped-script-install.ts:242-388 | Running the script writes exactly the env lines and the wrapped script lines, provided no line of either is its delimiter. |
| RemoteScripts.UserScriptReadsBack | apps/api/src/common/remote-wrapped-script-install.ts:331-370 | A reader that comes to the line closing the helper command's last argument finds a quoted here-document opened there, and the user script whole in it exactly when no line of it is the delimiter. |
| RemoteScripts.BuildCredentialEnvLines | apps/api/src/common/remote-wrapped-script-install.ts:56-69 | The builder returns the specified credential lines, or the single disabling line for a missing channel. |
| RemoteScripts.AppendProviderEnvLines | apps/api/src/common/remote-wrapped-script-install.ts:4-50 | The provider lines are pushed for supported types; an unsupported type throws all lines away. |
| RemoteScripts.CredentialsReadBack | apps/api/src/common/remote-wrapped-script-install.ts:4-69 | Sourcing the credential file sets exactly the variables of the channel, in order, with their values. |
| NotificationVars.FileSetsEntries | apps/api/src/common/remote-wrapped-script-install.ts:4-69 | Sourcing the credential file sets a flag, the type, the name, and each configuration entry of that type under the one variable name of that entry, an empty priority as 5; without a channel or for an unsupported type only a zero flag. |
| OrgFanOut.MigrateToOrganizationScope | apps/api/src/database/git-integration-org-migration.ts:146-239 | The nested loops over the table with fresh ids yield the specified table, with distinct ids, and pass through every state between two source rows and inside one. |
| OrgFanOut.FanOutKeepsIdsDistinct | apps/api/src/database/git-integration-org-migration.ts:146-150 | No id is used twice, and a row with an old id is its source row with at most the organization changed. |
| OrgFanOut.FanOutContents | apps/api/src/database/registry-account-org-migration.ts:174-251 | For every test on organization and data columns, as many result rows pass as the source rows stand for: one per organization of the user, none without user or membership, scoped rows as they are. |
| OrgFanOut.RowMoves | apps/api/src/database/git-integration-org-migration.ts:162-208 | A row with an organization stays as it is, one whose user has memberships moves to the organization joined first, and any other is gone. |
| OrgFanOut.RowIsCopied | apps/api/src/database/git-integration-org-migration.ts:209-238 | For every further organization of the user there is a row with the same data, a new id and no user. |
| OrgFanOut.FanOutIdempotent | apps/api/src/database/git-integration-org-migration.ts:90-93 | Every row is scoped afterwards and another run changes nothing, whatever the memberships are by then. |
| OrgFanOut.RestartBetweenRows | apps/api/src/database/git-integration-org-migration.ts:162-239 | A process that dies between two source rows and starts again ends with the same contents. |
| OrgFanOut.RestartLosesCopies | apps/api/src/database/git-integration-org-migration.ts:209-238 | A process that dies between the copies of one row and starts again lacks exactly the copies not yet made. |
| OrgFanOut.RestartExample | apps/api/src/database/git-integration-org-migration.ts:209-238 | A concrete row of a user of two organizations whose second copy is lost for good. |
| OrgFanOut.UniqueIndexExact | apps/api/src/database/git-integration-org-migration.ts:256-259 | The unique index on the organization, created after the loop, holds exactly when no two source rows stand for the same organization. |
| OrgFanOut.UniqueIndexExample | apps/api/src/database/git-integration-org-migration.ts:256-259 | Two colleagues' rows that end on the same organization. |
| OrgScopeBackfill.RunOrgScopeSchemaBackfill | apps/api/src/database/org-scope-backfill.ts:140-278 | The loops over all tables yield the specified tables, and the reported remainder is zero exactly when every row has an organization. |
| OrgScopeBackfill.DefaultOrgExact | apps/api/src/database/org-scope-backfill.ts:42-51 | The default organization is that of the user's first membership, and there is none exactly when the user has no membership. |
| OrgScopeBackfill.BackfillResolves | apps/api/src/database/org-scope-backfill.ts:42-232 | A row ends with its own organization, else the one of its user's first membership, which only a table with its legacy column can tell; a channel or cron job without one ends with what its server ends with in the same pass; it stays empty exactly when there is none. |
| OrgScopeBackfill.WebhookResolves | apps/api/src/database/org-scope-backfill.ts:234-252 | A webhook ends with its own organization, else that of its service's project after the pass, else that of its user's first membership. |
| OrgScopeBackfill.BackfillOnlyFills | apps/api/src/database/org-scope-backfill.ts:156-261 | No organization that was set is changed, nor any other column but the storage key of profiles with an organization. |
| OrgScopeBackfill.S3KeysMatch | apps/api/src/database/org-scope-backfill.ts:254-261 | After the pass a storage key is `o:` and the decimal id of its row's organization, and equal keys mean the same organization. |
| OrgScopeBackfill.BackfillIsFixpoint | apps/api/src/database/org-scope-backfill.ts:136-139 | A second pass changes nothing, also when legacy columns were dropped in between. |
| GitAccounts.RunKeeps | apps/api/src/git/git.service.ts:414-957 | In every state reachable by updates, creations, removals, reads and uses, also after failures half way, each organization and provider has at most one active account. |
| GitAccounts.NormalReturn | apps/api/src/git/git.service.ts:454-473 | When an operation returns, each scope it reports on has exactly one active account if it has any. |
| GitAccounts.AbortIsUndone | apps/api/src/git/git.service.ts:605-627 | An update that fails after switching the others off is undone by the next read: every scope that had an account ends with the same active account as without the update. |
| GitAccounts.UpdateKeeps | apps/api/src/git/git.service.ts:765-866 | A successful update leaves the named, new or working account active and the other provider's choice as it was; other organizations are untouched. |
| GitAccounts.CreateKeeps | apps/api/src/git/git.service.ts:868-924 | A creation leaves the new account active; one that fails changes no scope's choice. |
| GitAccounts.RemoveAccountKeeps | apps/api/src/git/git.service.ts:926-957 | After a removal each scope has the active account it would have if the removed one had never been there. |
| GitAccountRows.UpdateStores | apps/api/src/git/git.service.ts:765-844 | After a successful update the account it works on (named, new, or the active or last written one) holds the sealed edit of the fields it had and the trimmed new name if one was given; every other account keeps its name, and its fields up to sealing. |
| GitAccountRows.UpdateRefusals | apps/api/src/git/git.service.ts:605-655 | An update fails exactly without a usable organization id, when no account of the provider has the given public id, for a new account without a name, or when the fields cannot be applied to those it starts from. |
| GitAccountRows.CreateStores | apps/api/src/git/git.service.ts:868-924 | A new account holds the asked-for scope, the trimmed name and the edit of empty fields as the page then shows them; every other account keeps its name, and its fields up to what the page fills in. |
| GitAccountRows.CreateRefusals | apps/api/src/git/git.service.ts:868-918 | A creation fails exactly without a usable organization id, a name, or applicable fields. |
| GitAccountRows.RemoveStores | apps/api/src/git/git.service.ts:926-957 | A removal takes an account of the organization with the given public id and no other, and fails exactly when there is none. |
| GitAccountRows.GetEach | apps/api/src/git/git.service.ts:534-560 | Reading the settings page writes only the accounts it shows as active, and of them only the fields: sealed, and for GitHub with the slug filled in. |
| GitService.Service.ProviderSettingsRowForOrganizationOptional | apps/api/src/git/git.service.ts:454-473 | The lookup with its repair writes yields the specified table and row. |
| GitService.Service.ProviderSettingsRowForOrganization | apps/api/src/git/git.service.ts:414-452 | The same with a default account created when there is none. |
| GitService.Service.ResolveRowForUpdate | apps/api/src/git/git.service.ts:605-655 | The row an update works on, or the error, and the table at that point, are as specified. |
| GitService.Service.UpdateSettings | apps/api/src/git/git.service.ts:765-866 | The update yields the table or failure the lemmas about stored fields speak of; after every single write at most one account per scope is active. |
| GitService.Service.CreateAccount | apps/api/src/git/git.service.ts:868-924 | The creation yields the specified table or failure, likewise after every single write. |
| GitService.Service.RemoveAccount | apps/api/src/git/git.service.ts:926-957 | The removal yields the specified table or failure, likewise after every single write. |
| SecretsCache.EveryRun | apps/api/src/dockersecrets/dockersecrets.service.ts:239-273 | For every interleaving, at most one fetch per key is under way, and every answer is the outcome of the fetch the caller joined or a list fetched successfully less than the cache time ago. |
| SecretsCache.CleanupRemovesOwn | apps/api/src/dockersecrets/dockersecrets.service.ts:256-258 | The clean-up of a fetch finds its own entry, never a newer one, and removes only that. |
| SecretsCache.MutationExact | apps/api/src/dockersecrets/dockersecrets.service.ts:139-146 | After a mutation, everything cached or fetched for the key was begun after it exactly when no fetch for the key was under way. |
| SecretsCache.RunKeepsFresh | apps/api/src/dockersecrets/dockersecrets.service.ts:239-273 | Once that holds it holds for the rest of the run. |
| SecretsCache.StaleAfterMutation | apps/api/src/dockersecrets/dockersecrets.service.ts:148-160 | A concrete run in which the list from before a mutation is cached after it and served. |
| SecretsCache.DockerSecretsService.FindAll | apps/api/src/dockersecrets/dockersecrets.service.ts:239-263 | Up to the await, the method answers from the cache, joins the fetch under way or starts one, as specified. |
| CacheProgress.CallExact | apps/api/src/dockersecrets/dockersecrets.service.ts:239-263 | A call within an entry's lifetime is answered from it at once; any other awaits the one unfinished fetch of its own key, which is started only when there is none. |
| CacheProgress.DeliveryExact | apps/api/src/dockersecrets/dockersecrets.service.ts:256-273 | A caller whose fetch is over gets its rows or its failure and waits no longer; before that it gets nothing. |
| CacheProgress.NobodyIsStuck | apps/api/src/dockersecrets/dockersecrets.service.ts:239-273 | From every reachable state the fetch a caller awaits can end whatever the host answers, and then the caller gets an answer for its key. |
| ProvisionWorker.EveryRun | apps/api/src/remote-servers/remote-server-provision.service.ts:423-573 | In every reachable state at most one tick is past the guard, a job about to start is the oldest pending one, the job worked on is running, and the buffer is the last part of all output. |
| ProvisionWorker.RunAdvances | apps/api/src/remote-servers/remote-server-provision.service.ts:444-573 | Over any run a job's status only moves from pending to running to done or error, and a deleted id does not come back. |
| WorkerProgress.IdleStartsOldest | apps/api/src/remote-servers/remote-server-provision.service.ts:423-460 | An idle worker with a pending job sets the oldest one running with an empty log and changes no other row. |
| WorkerProgress.WorkEnds | apps/api/src/remote-servers/remote-server-provision.service.ts:548-573 | A job at work can end with its status, and the worker is idle again. |
| WorkerProgress.QueueDrains | apps/api/src/remote-servers/remote-server-provision.service.ts:423-573 | From every idle state some run finishes all pending jobs and changes no other row. |
| ProvisionWorker.PurgeSparesWork | apps/api/src/remote-servers/remote-server-provision.service.ts:82-96 | A purge removes finished jobs only, so never the one being worked on, and alters no row it keeps. |
| WorkerProgress.PurgeExact | apps/api/src/remote-servers/remote-server-provision.service.ts:82-96 | A purge takes exactly the finished jobs last written before the cutoff. |
| ProvisionWorker.FinishPersists | apps/api/src/remote-servers/remote-server-provision.service.ts:554-572 | The moment a job ends its row holds its status and the trimmed end of all output, within the limit. |
| ProvisionWorker.FinalLogExact | apps/api/src/remote-servers/remote-server-provision.service.ts:461-465 | The log of a finished job is final exactly when no log update with another text is still on its way for it. |
| ProvisionWorker.LateLogOverLimit | apps/api/src/remote-servers/remote-server-provision.service.ts:548-561 | A concrete run in which a finished job keeps a log longer than the limit. |
| ProvisionWorker.TrimFits | apps/api/src/remote-servers/remote-server-provision.service.ts:74-80 | The persisted log never exceeds the limit and is the log itself or the marker followed by a suffix that fills it. |
| ProvisionWorker.TrimSeesWholeStream | apps/api/src/remote-servers/remote-server-provision.service.ts:461-465 | Trimming the buffer equals trimming the whole output exactly when the limit is below the buffer size or nothing was dropped, or at that size when the output supplies the marker itself. |
| ProvisionWorker.MarkerLostExample | apps/api/src/remote-servers/remote-server-provision.service.ts:56-80 | With the limit configured to the buffer size, a log one character longer is persisted without the marker. |
| ProvisionWorker.LimitAtLeast | apps/api/src/remote-servers/remote-server-provision.service.ts:56-63 | Whatever is configured, the limit leaves room for the marker. |
| ProvisionWorker.RemoteServerProvisionService.ProcessNextPendingJob | apps/api/src/remote-servers/remote-server-provision.service.ts:423-427 | Up to the first await: an overlapping tick does nothing, another one takes the flag. |
| ProvisionWorker.RemoteServerProvisionService.FindOldestPending | apps/api/src/remote-servers/remote-server-provision.service.ts:429-437 | The tick goes on with the pending job created first, or ends when there is none. |
| ProvisionWorker.RemoteServerProvisionService.AppendLog | apps/api/src/remote-servers/remote-server-provision.service.ts:461-465 | A chunk extends the bounded buffer and sends one log update, an empty chunk does nothing. |
| ProvisionWorker.RemoteServerProvisionService.FinishJob | apps/api/src/remote-servers/remote-server-provision.service.ts:554-572 | The final write sets status and trimmed log of a row that still exists. |
| ProvisionWorker.RemoteServerProvisionService.PurgeStaleCompletedJobs | apps/api/src/remote-servers/remote-server-provision.service.ts:82-96 | The purge yields the specified table. |
| CronFields.ValidateExact | apps/api/src/cron-jobs/cron-jobs.service.ts:405-429 | A field is accepted exactly when it reads as a comma list of items that are all in range. |
| CronFields.PrintAccepted | apps/api/src/cron-jobs/cron-jobs.service.ts:405-429 | The printing of a list of any length is accepted exactly when every item is in range. |
| CronFields.OkMeansInside | apps/api/src/cron-jobs/cron-jobs.service.ts:405-429 | An accepted item stands for at least one value and none outside the bounds; numbers and ranges are accepted exactly then. |
| CronFields.AcceptedMeansInside | apps/api/src/cron-jobs/cron-jobs.service.ts:405-429 | Every accepted field, whatever its text, stands for at least one value and none outside the bounds. |
| CronFields.ExpressionAccepted | apps/api/src/cron-jobs/cron-jobs.service.ts:431-441 | Five printed fields joined by blanks are accepted exactly when every item is in the range of its place. |
| CronFields.FieldReadsBack | apps/api/src/cron-jobs/cron-jobs.service.ts:405-429 | Reading a printed list of items gives the same items. |
| WorkspacePermissions.AllowsExact | apps/api/src/organizations/organization-workspace-permissions.ts:245-274 | An area is allowed exactly for owners and where neither it nor the area above it is denied. |
| WorkspacePermissions.SubImpliesParent | apps/api/src/organizations/organization-workspace-permissions.ts:251-255 | An allowed sub-area implies that its parent is allowed. |
| WorkspaceAreas.NestedByKey | apps/api/src/organizations/organization-workspace-permissions.ts:4-243 | An area with an area above it is stored under that area's key, an underscore and a suffix. |
| WorkspaceAreas.ServerAccessExact | apps/api/src/organizations/organization-workspace-permissions.ts:281-287 | The server list is open to owners and unless both remote servers and domains are denied. |
| WorkspacePermissions.PatchesCompose | apps/api/src/organizations/organization-workspace-permissions.ts:311-329 | Merging two patches one after the other equals merging the first overridden by the second. |
| WorkspacePermissions.PatchEffect | apps/api/src/organizations/organization-workspace-permissions.ts:311-329 | Denials follow the patch where it speaks and stay elsewhere; an area whose denial and whose parent's denial it does not mention keeps its access. |
| WorkspacePermissions.MatrixRoundTrip | apps/api/src/organizations/organization-workspace-permissions.ts:289-329 | Saving the effective matrix of a member onto an empty record gives the member the same access. |
| WorkspacePermissions.EffectiveWorkspacePermissions | apps/api/src/organizations/organization-workspace-permissions.ts:289-297 | The loop returns a matrix with every area and its access. |
| WorkspacePermissions.MergeWorkspacePermissionPatch | apps/api/src/organizations/organization-workspace-permissions.ts:311-329 | The loop over the patch computes the merged record, null when empty. |
| WorkspacePermissions.AssertMembershipMatchesWorkspaceOptions | apps/api/src/common/organization-workspace-scope.ts:14-52 | The gate of the workspace services refuses exactly as specified, with the same kind of refusal as the other gate. |
| WorkspacePermissions.RequireMemberContextGate | apps/api/src/organizations/organizations.service.ts:1081-1116 | The separately written gate of the organization service refuses exactly as specified. |
| WorkspacePermissions.GrantsKeepGatesOpen | apps/api/src/organizations/organization-workspace-permissions.ts:310-329 | A patch that only grants never closes a gate that was open. |
| WorkspacePermissions.OwnersPass | apps/api/src/organizations/organization-workspace-permissions.ts:249-249 | An owner passes every gate. |

## Left out

- ComposeInjection.InjectTextIdempotentExact: requires the services section at column 0, an external network name the scanner reads back, and route names and rules without line breaks.
- ComposeCarriage.AttachTextResult: requires the services section at column 0 (with an indented one the scans of root networks and of services disagree on indents) and an external name without whitespace at its ends or line breaks.
- ComposeAttach.AttachAllAttaches: requires the services section at column 0 and an external network that does not shadow it, which ShadowingExact shows to be needed; lines are values, so a name with whitespace at its ends or a line break is taken as one body.
- ComposeNetworks.DeclareDeclares: speaks of declared names only; which options stand below them is DriverExact's subject.
- ComposeOptions.DriverExact: requires the services section at column 0, an external network that is not `weehawk-internal` itself and does not shadow the section, and a file that does not declare `weehawk-internal` yet.
- ComposeLabels.DeployBlockReads: requires network, entrypoints, resolver and router names without quotes and backslashes; the code escapes rules only.
- RedirectRequests.ChainEnds: for whole limits; fractional ones are FinalThrowExact's subject.
- The provider fields of a Git account are one value, edited and sealed as a whole by arbitrary functions; which request field goes into which column is not part of this model.
- OrgAccountDeletion.PurgeDone: each service operation is one atomic step; two deletions or demotions at the same time are not modelled, the code takes no locks.
- RemoteScripts.InstallWrites: one direction only; after an early delimiter the remaining lines run as commands, which this shell reader gives no meaning to.
- RemoteScripts.BuildInstallScript: the fixed bash lines of the wrapped script are an arbitrary argument, and the user script is taken after its optional shebang line was stripped.
- Redirects.ChainBounded: limits are real numbers of at least 0; NaN and infinite limits are not modelled.
- ProvisionWorker.EveryRun: one worker process; a restart is a step, a second process at the same time is not.
- GitAccounts.AbortIsUndone: speaks of scopes that had an account; an update without a named account creates a default account first and keeps it when it fails.
- CronFields.ValidateExact: numbers are unbounded integers; the source's floating-point numbers agree wherever a comparison with the bounds decides.
- ensureTemplateComposeContainerName and prepareTemplateComposeForTraefikFileProvider: one more single-line edit.
- Full YAML: the code never parses it, so neither does the model.
- The DDL at the end of the migrations, apart from the condition under which the unique index holds.
- String forms of ids returned by database drivers in the migrations' pick helpers.
- Audit events, realtime notifications, permissions of members in the organization state machine, and the rows of other tables deleted with an organization.
- Paging, filtering and the dotenv import of Docker secrets.
- Building the provision and redeploy scripts, and everything that runs over SSH, Docker, HTTP or DNS.
- Controllers, modules, gateways, DTO mapping and the web application.

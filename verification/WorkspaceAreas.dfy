// The stored keys of the workspace areas, and what they say about how areas nest.
module WorkspaceAreas {
  import opened Wrappers
  import opened WorkspacePermissions

  // The key an area is stored under.
  function StoredKey(a: Area): string {
    match a
    case Projects => "projects"
    case ProjectsView => "projects_view"
    case ProjectsAdd => "projects_add"
    case ProjectsDelete => "projects_delete"
    case RemoteServer => "remote_server"
    case RemoteServerTerminal => "remote_server_terminal"
    case RemoteServerDockerManager => "remote_server_docker_manager"
    case RemoteServerTest => "remote_server_test"
    case RemoteServerAdd => "remote_server_add"
    case RemoteServerEdit => "remote_server_edit"
    case RemoteServerDelete => "remote_server_delete"
    case RemoteServerInstallMaintenance => "remote_server_install_maintenance"
    case Domains => "domains"
    case DomainsCertificateEmail => "domains_certificate_email"
    case DomainsAdd => "domains_add"
    case Webhooks => "webhooks"
    case WebhooksAdd => "webhooks_add"
    case WebhooksEdit => "webhooks_edit"
    case WebhooksLogs => "webhooks_logs"
    case WebhooksRun => "webhooks_run"
    case WebhooksDelete => "webhooks_delete"
    case CronJobs => "cron_jobs"
    case CronJobsAdd => "cron_jobs_add"
    case CronJobsEdit => "cron_jobs_edit"
    case CronJobsLogs => "cron_jobs_logs"
    case CronJobsRun => "cron_jobs_run"
    case CronJobsDelete => "cron_jobs_delete"
    case Notifications => "notifications"
    case NotificationsAdd => "notifications_add"
    case NotificationsEdit => "notifications_edit"
    case NotificationsTest => "notifications_test"
    case S3 => "s3"
    case S3Browse => "s3_browse"
    case S3Add => "s3_add"
    case S3Edit => "s3_edit"
    case Registry => "registry"
    case RegistryAdd => "registry_add"
    case RegistryEdit => "registry_edit"
    case RegistryDelete => "registry_delete"
    case RegistryTest => "registry_test"
    case Git => "git"
    case GitAdd => "git_add"
    case GitEdit => "git_edit"
    case GitDelete => "git_delete"
    case GitProviders => "git_providers"
    case Management => "organization_management"
    case ManagementOverview => "organization_management_overview"
    case ManagementAuditLog => "organization_management_audit_log"
    case ManagementMembers => "organization_management_members"
    case ManagementPermissions => "organization_management_permissions"
    case ManagementSettings => "organization_management_settings"
  }

  // `key` is `top`, an underscore and more.
  predicate Under(key: string, top: string) {
    |key| > |top| + 1 && key[..|top|] == top && key[|top|] == '_'
  }

  lemma ProjectsNest(a: Area)
    requires Parent(a) == Some(Projects)
    ensures Under(StoredKey(a), "projects")
  {
    assert a == ProjectsView ==> StoredKey(a)[..8] == "projects";
    assert a == ProjectsAdd ==> StoredKey(a)[..8] == "projects";
    assert a == ProjectsDelete ==> StoredKey(a)[..8] == "projects";
  }

  lemma RemoteServerNest(a: Area)
    requires Parent(a) == Some(RemoteServer)
    ensures Under(StoredKey(a), "remote_server")
  {
    assert a == RemoteServerTerminal ==> StoredKey(a)[..13] == "remote_server";
    assert a == RemoteServerDockerManager ==> StoredKey(a)[..13] == "remote_server";
    assert a == RemoteServerTest ==> StoredKey(a)[..13] == "remote_server";
    assert a == RemoteServerAdd ==> StoredKey(a)[..13] == "remote_server";
    assert a == RemoteServerEdit ==> StoredKey(a)[..13] == "remote_server";
    assert a == RemoteServerDelete ==> StoredKey(a)[..13] == "remote_server";
    assert a == RemoteServerInstallMaintenance ==> StoredKey(a)[..13] == "remote_server";
  }

  lemma DomainsNest(a: Area)
    requires Parent(a) == Some(Domains)
    ensures Under(StoredKey(a), "domains")
  {
    assert a == DomainsCertificateEmail ==> StoredKey(a)[..7] == "domains";
    assert a == DomainsAdd ==> StoredKey(a)[..7] == "domains";
  }

  lemma WebhooksNest(a: Area)
    requires Parent(a) == Some(Webhooks)
    ensures Under(StoredKey(a), "webhooks")
  {
    assert a == WebhooksAdd ==> StoredKey(a)[..8] == "webhooks";
    assert a == WebhooksEdit ==> StoredKey(a)[..8] == "webhooks";
    assert a == WebhooksLogs ==> StoredKey(a)[..8] == "webhooks";
    assert a == WebhooksRun ==> StoredKey(a)[..8] == "webhooks";
    assert a == WebhooksDelete ==> StoredKey(a)[..8] == "webhooks";
  }

  lemma CronJobsNest(a: Area)
    requires Parent(a) == Some(CronJobs)
    ensures Under(StoredKey(a), "cron_jobs")
  {
    assert a == CronJobsAdd ==> StoredKey(a)[..9] == "cron_jobs";
    assert a == CronJobsEdit ==> StoredKey(a)[..9] == "cron_jobs";
    assert a == CronJobsLogs ==> StoredKey(a)[..9] == "cron_jobs";
    assert a == CronJobsRun ==> StoredKey(a)[..9] == "cron_jobs";
    assert a == CronJobsDelete ==> StoredKey(a)[..9] == "cron_jobs";
  }

  lemma NotificationsNest(a: Area)
    requires Parent(a) == Some(Notifications)
    ensures Under(StoredKey(a), "notifications")
  {
    assert a == NotificationsAdd ==> StoredKey(a)[..13] == "notifications";
    assert a == NotificationsEdit ==> StoredKey(a)[..13] == "notifications";
    assert a == NotificationsTest ==> StoredKey(a)[..13] == "notifications";
  }

  lemma S3Nest(a: Area)
    requires Parent(a) == Some(S3)
    ensures Under(StoredKey(a), "s3")
  {
    assert a == S3Browse ==> StoredKey(a)[..2] == "s3";
    assert a == S3Add ==> StoredKey(a)[..2] == "s3";
    assert a == S3Edit ==> StoredKey(a)[..2] == "s3";
  }

  lemma RegistryNest(a: Area)
    requires Parent(a) == Some(Registry)
    ensures Under(StoredKey(a), "registry")
  {
    assert a == RegistryAdd ==> StoredKey(a)[..8] == "registry";
    assert a == RegistryEdit ==> StoredKey(a)[..8] == "registry";
    assert a == RegistryDelete ==> StoredKey(a)[..8] == "registry";
    assert a == RegistryTest ==> StoredKey(a)[..8] == "registry";
  }

  lemma GitNest(a: Area)
    requires Parent(a) == Some(Git)
    ensures Under(StoredKey(a), "git")
  {
    assert a == GitAdd ==> StoredKey(a)[..3] == "git";
    assert a == GitEdit ==> StoredKey(a)[..3] == "git";
    assert a == GitDelete ==> StoredKey(a)[..3] == "git";
    assert a == GitProviders ==> StoredKey(a)[..3] == "git";
  }

  lemma ManagementNest(a: Area)
    requires Parent(a) == Some(Management)
    ensures Under(StoredKey(a), "organization_management")
  {
    hide StoredKey, Under;
    if a == ManagementOverview || a == ManagementAuditLog {
      ManagementLogsNest(a);
    } else if a == ManagementSettings {
      ManagementSettingsNest(a);
    } else {
      ManagementPeopleNest(a);
    }
  }

  lemma ManagementLogsNest(a: Area)
    requires a == ManagementOverview || a == ManagementAuditLog
    ensures Under(StoredKey(a), "organization_management")
  {
    assert a == ManagementOverview ==> StoredKey(a)[..23] == "organization_management";
    assert a == ManagementAuditLog ==> StoredKey(a)[..23] == "organization_management";
  }

  lemma ManagementPeopleNest(a: Area)
    requires a == ManagementMembers || a == ManagementPermissions
    ensures Under(StoredKey(a), "organization_management")
  {
    assert a == ManagementMembers ==> StoredKey(a)[..23] == "organization_management";
    assert a == ManagementPermissions ==> StoredKey(a)[..23] == "organization_management";
  }

  lemma ManagementSettingsNest(a: Area)
    requires a == ManagementSettings
    ensures Under(StoredKey(a), "organization_management")
  {
    assert StoredKey(a)[..23] == "organization_management";
  }

  // An area is nested exactly when it is none of the ten whole areas.
  lemma WholeAreas(a: Area)
    ensures Parent(a).None? <==>
              a in {Projects, RemoteServer, Domains, Webhooks, CronJobs, Notifications, S3, Registry, Git, Management}
  {
  }

  // The server list is open unless both areas that show it are denied.
  lemma ServerAccessExact(m: Membership)
    ensures HasOrgServerAccess(m) <==> m.owner || !Denied(m.permissions, RemoteServer) || !Denied(m.permissions, Domains)
  {
    AllowsExact(m, RemoteServer);
    AllowsExact(m, Domains);
    hide Allows, Denied;
  }

  // An area with an area above it is stored under the key of that area and a suffix.
  lemma NestedByKey(a: Area)
    requires Parent(a).Some?
    ensures Under(StoredKey(a), StoredKey(Parent(a).value))
  {
    hide Under;
    match Parent(a).value
    case Projects => ProjectsNest(a);
    case RemoteServer => RemoteServerNest(a);
    case Domains => DomainsNest(a);
    case Webhooks => WebhooksNest(a);
    case CronJobs => CronJobsNest(a);
    case Notifications => NotificationsNest(a);
    case S3 => S3Nest(a);
    case Registry => RegistryNest(a);
    case Git => GitNest(a);
    case Management => ManagementNest(a);
    case _ =>
  }
}

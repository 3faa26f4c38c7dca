/** The explicit inventory of governed tables and columns, and the alphabets of the values they may hold. */
module IdRegistry {
  import opened Wrappers

  newtype Table = id: int | 0 <= id < 49

  newtype Column = id: int | 0 <= id < 128

  const USER: Table := 0
  const ACCOUNT: Table := 1
  const SESSION: Table := 2
  const API_KEY: Table := 3
  const DEVICE_CODE: Table := 4
  const MEMBER: Table := 5
  const INVITATION: Table := 6
  const ORGANIZATION: Table := 7
  const OAUTH_CLIENT: Table := 8
  const OAUTH_RESOURCE: Table := 9
  const OAUTH_CLIENT_RESOURCE: Table := 10
  const OAUTH_CLIENT_REGISTRATION: Table := 11
  const OAUTH_ACCESS_TOKEN: Table := 12
  const OAUTH_REFRESH_TOKEN: Table := 13
  const OAUTH_PUSHED_AUTHORIZATION_REQUEST: Table := 14
  const OAUTH_CLIENT_ASSERTION: Table := 15
  const OAUTH_CONSENT: Table := 16
  const JWKS: Table := 17
  const VERIFICATION: Table := 18
  const DOWNLOADER_BOOTSTRAP_CREDENTIALS: Table := 19
  const AUDIT_EVENTS: Table := 20
  const RESOURCE_CHANGES: Table := 21
  const NOTIFICATIONS: Table := 22
  const ANNOUNCEMENTS: Table := 23
  const MATTERS: Table := 24
  const STORAGES: Table := 25
  const SHARES: Table := 26
  const SHARE_RECIPIENTS: Table := 27
  const IMAGE_HOSTINGS: Table := 28
  const IMAGE_HOSTING_CONFIGS: Table := 29
  const OBJECT_UPLOAD_SESSIONS: Table := 30
  const BACKGROUND_JOBS: Table := 31
  const DOWNLOADERS: Table := 32
  const DOWNLOAD_TASKS: Table := 33
  const REMOTE_DOWNLOAD_USAGE_REPORTS: Table := 34
  const CLOUD_TRAFFIC_REPORTS: Table := 35
  const ORG_QUOTAS: Table := 36
  const ORG_QUOTA_ENTITLEMENTS: Table := 37
  const STORAGE_USAGE_LEDGER: Table := 38
  const STORAGE_USAGE_BREAKDOWNS: Table := 39
  const STATS_ROLLUPS_HOURLY: Table := 40
  const SITE_INVITATIONS: Table := 41
  const INVITE_CODES: Table := 42
  const TEAM_INVITE_LINKS: Table := 43
  const LICENSE_BINDINGS: Table := 44
  const WEBHOOK_EVENTS: Table := 45
  const X402_CAPACITY_PURCHASE_INTENTS: Table := 46
  const WEBDAV_DEAD_PROPERTIES: Table := 47
  const WEBDAV_LOCKS: Table := 48

  const ID: Column := 0
  const USER_ID: Column := 1
  const REFERENCE_ID: Column := 2
  const INVITER_ID: Column := 3
  const CREATOR_ID: Column := 4
  const RECIPIENT_USER_ID: Column := 5
  const INVITED_BY: Column := 6
  const ACCEPTED_BY: Column := 7
  const REVOKED_BY: Column := 8
  const CREATED_BY: Column := 9
  const USED_BY: Column := 10
  const CREATED_BY_USER_ID: Column := 11
  const ORGANIZATION_ID: Column := 12
  const ACTIVE_ORGANIZATION_ID: Column := 13
  const ORG_ID: Column := 14
  const MATTER_ID: Column := 15
  const OBJECT_ID: Column := 16
  const RESULT_OBJECT_ID: Column := 17
  const STORAGE_ID: Column := 18
  const SHARE_ID: Column := 19
  const RETRIED_FROM_JOB_ID: Column := 20
  const ASSIGNED_DOWNLOADER_ID: Column := 21
  const DOWNLOADER_ID: Column := 22
  const TASK_ID: Column := 23
  const ALIAS: Column := 24
  const TOKEN: Column := 25
  const CODE: Column := 26
  const VERIFICATION_TOKEN: Column := 27
  const METADATA: Column := 28
  const RESULT_METADATA: Column := 29
  const EVENTS: Column := 30
  const TARGET_TYPE: Column := 31
  const TARGET_ID: Column := 32
  const ACTOR_TYPE: Column := 33
  const ACTOR_REF: Column := 34
  const EVENT_KEY: Column := 35
  const SCOPE_TYPE: Column := 36
  const SCOPE_ID: Column := 37
  const RESOURCE_TYPE: Column := 38
  const RESOURCE_ID: Column := 39
  const REF_TYPE: Column := 40
  const REF_ID: Column := 41
  const SOURCE: Column := 42
  const SOURCE_ID: Column := 43
  const STATUS: Column := 44
  const TOKEN_HASH: Column := 45
  const TOKEN_JTI: Column := 46
  const ENABLED: Column := 47
  const CLIENT_ID: Column := 48

  /** Row ids are one kind per table; the other kinds are aliases and public tokens. */
  datatype Kind =
    | RowId(of: Table)
    | MatterAlias
    | ShareToken
    | ImageToken
    | SiteInviteToken
    | TeamInviteToken
    | InviteCode
    | ImageVerificationToken

  datatype Reference = Ref(table: Table, column: Column, allowDangling: bool)

  /** A further column whose values are collected; `filter` restricts it to rows of one type. */
  datatype MappingSource = MappingSource(table: Table, column: Column, filter: Option<(Column, string)>, skipEmpty: bool)

  function Live(table: Table, column: Column): Reference {
    Ref(table, column, false)
  }

  function Historical(table: Table, column: Column): Reference {
    Ref(table, column, true)
  }

  function References(kind: Kind): seq<Reference> {
    if kind == RowId(USER) then [
      Live(ACCOUNT, USER_ID), Live(SESSION, USER_ID), Live(API_KEY, REFERENCE_ID), Live(DEVICE_CODE, USER_ID),
      Live(MEMBER, USER_ID), Live(INVITATION, INVITER_ID), Live(OAUTH_CLIENT, USER_ID), Historical(AUDIT_EVENTS, USER_ID),
      Live(SHARES, CREATOR_ID), Live(SHARE_RECIPIENTS, RECIPIENT_USER_ID), Live(NOTIFICATIONS, USER_ID),
      Live(SITE_INVITATIONS, INVITED_BY), Live(SITE_INVITATIONS, ACCEPTED_BY), Live(SITE_INVITATIONS, REVOKED_BY),
      Live(INVITE_CODES, CREATED_BY), Live(INVITE_CODES, USED_BY), Live(TEAM_INVITE_LINKS, INVITER_ID),
      Live(ANNOUNCEMENTS, CREATED_BY), Live(BACKGROUND_JOBS, USER_ID), Historical(DOWNLOAD_TASKS, CREATED_BY_USER_ID),
      Live(DOWNLOADERS, CREATED_BY)]
    else if kind == RowId(ORGANIZATION) then [
      Live(MEMBER, ORGANIZATION_ID), Live(INVITATION, ORGANIZATION_ID), Live(SESSION, ACTIVE_ORGANIZATION_ID),
      Live(MATTERS, ORG_ID), Live(SHARES, ORG_ID), Historical(AUDIT_EVENTS, ORG_ID), Live(ORG_QUOTAS, ORG_ID),
      Live(ORG_QUOTA_ENTITLEMENTS, ORG_ID), Live(STORAGES, ORG_ID), Live(NOTIFICATIONS, ORG_ID),
      Live(TEAM_INVITE_LINKS, ORGANIZATION_ID), Live(BACKGROUND_JOBS, ORG_ID), Live(DOWNLOAD_TASKS, ORG_ID),
      Live(OBJECT_UPLOAD_SESSIONS, ORG_ID), Historical(REMOTE_DOWNLOAD_USAGE_REPORTS, ORG_ID),
      Historical(CLOUD_TRAFFIC_REPORTS, ORG_ID), Historical(STORAGE_USAGE_LEDGER, ORG_ID),
      Historical(STORAGE_USAGE_BREAKDOWNS, ORG_ID), Live(IMAGE_HOSTING_CONFIGS, ORG_ID), Live(IMAGE_HOSTINGS, ORG_ID),
      Live(X402_CAPACITY_PURCHASE_INTENTS, ORG_ID), Historical(STATS_ROLLUPS_HOURLY, ORG_ID),
      Live(WEBDAV_DEAD_PROPERTIES, ORG_ID), Live(WEBDAV_LOCKS, ORG_ID)]
    else if kind == RowId(MATTERS) then [
      Live(SHARES, MATTER_ID), Historical(OBJECT_UPLOAD_SESSIONS, OBJECT_ID), Historical(DOWNLOAD_TASKS, RESULT_OBJECT_ID)]
    else if kind == RowId(STORAGES) then [
      Live(MATTERS, STORAGE_ID), Live(OBJECT_UPLOAD_SESSIONS, STORAGE_ID), Historical(STORAGE_USAGE_LEDGER, STORAGE_ID),
      Live(IMAGE_HOSTINGS, STORAGE_ID), Historical(CLOUD_TRAFFIC_REPORTS, STORAGE_ID)]
    else if kind == RowId(SHARES) then [Live(SHARE_RECIPIENTS, SHARE_ID)]
    else if kind == RowId(BACKGROUND_JOBS) then [Live(BACKGROUND_JOBS, RETRIED_FROM_JOB_ID)]
    else if kind == RowId(DOWNLOADERS) then [
      Live(DOWNLOAD_TASKS, ASSIGNED_DOWNLOADER_ID), Live(REMOTE_DOWNLOAD_USAGE_REPORTS, DOWNLOADER_ID)]
    else if kind == RowId(DOWNLOAD_TASKS) then [Historical(REMOTE_DOWNLOAD_USAGE_REPORTS, TASK_ID)]
    else []
  }

  function PrimaryTable(kind: Kind): Table {
    match kind
    case RowId(table) => table
    case MatterAlias => MATTERS
    case ShareToken => SHARES
    case ImageToken => IMAGE_HOSTINGS
    case SiteInviteToken => SITE_INVITATIONS
    case TeamInviteToken => TEAM_INVITE_LINKS
    case InviteCode => INVITE_CODES
    case ImageVerificationToken => IMAGE_HOSTING_CONFIGS
  }

  function PrimaryColumn(kind: Kind): Column {
    match kind
    case RowId(_) => ID
    case MatterAlias => ALIAS
    case InviteCode => CODE
    case ImageVerificationToken => VERIFICATION_TOKEN
    case _ => TOKEN
  }

  function Primary(kind: Kind): Reference {
    Live(PrimaryTable(kind), PrimaryColumn(kind))
  }

  /** The primary column, then every declared reference. */
  function Targets(kind: Kind): seq<Reference> {
    [Primary(kind)] + References(kind)
  }

  predicate RotatesAll(kind: Kind) {
    !kind.RowId? && kind != MatterAlias
  }

  /** The columns whose every value is replaced: share, image, invitation and verification tokens, and invite codes. */
  const TOKEN_COLUMNS: seq<(Kind, Table, Column)> := [
    (ShareToken, SHARES, TOKEN),
    (ImageToken, IMAGE_HOSTINGS, TOKEN),
    (SiteInviteToken, SITE_INVITATIONS, TOKEN),
    (TeamInviteToken, TEAM_INVITE_LINKS, TOKEN),
    (InviteCode, INVITE_CODES, CODE),
    (ImageVerificationToken, IMAGE_HOSTING_CONFIGS, VERIFICATION_TOKEN)]

  /** They are the primary columns of the rotated kinds. */
  lemma TokenColumnsArePrimary(place: (Kind, Table, Column))
    ensures place in TOKEN_COLUMNS <==>
      RotatesAll(place.0) && place.1 == PrimaryTable(place.0) && place.2 == PrimaryColumn(place.0)
  {
  }

  /** How many characters the generator draws for a kind. */
  function GeneratedLength(kind: Kind): nat {
    match kind
    case RowId(table) => if table == IMAGE_HOSTINGS then 13 else 22
    case MatterAlias => 11
    case ShareToken => 12
    case ImageToken => 12
    case SiteInviteToken => 33
    case TeamInviteToken => 32
    case InviteCode => 10
    case ImageVerificationToken => 33
  }

  /** Every governed kind, in the order the migration visits them. */
  const VALUE_KINDS: seq<Kind> := [
    RowId(USER), RowId(ORGANIZATION), RowId(MATTERS), RowId(STORAGES), RowId(SHARES), RowId(IMAGE_HOSTINGS),
    RowId(BACKGROUND_JOBS), RowId(DOWNLOADERS), RowId(DOWNLOAD_TASKS),
    RowId(ACCOUNT), RowId(API_KEY), RowId(DEVICE_CODE), RowId(AUDIT_EVENTS), RowId(MEMBER), RowId(INVITATION),
    RowId(OAUTH_CLIENT), RowId(OAUTH_RESOURCE), RowId(OAUTH_CLIENT_RESOURCE), RowId(ANNOUNCEMENTS),
    RowId(CLOUD_TRAFFIC_REPORTS), RowId(INVITE_CODES), RowId(LICENSE_BINDINGS), RowId(NOTIFICATIONS),
    RowId(OBJECT_UPLOAD_SESSIONS), RowId(ORG_QUOTA_ENTITLEMENTS), RowId(ORG_QUOTAS), RowId(REMOTE_DOWNLOAD_USAGE_REPORTS),
    RowId(SHARE_RECIPIENTS), RowId(SITE_INVITATIONS), RowId(STORAGE_USAGE_LEDGER), RowId(TEAM_INVITE_LINKS),
    RowId(WEBDAV_DEAD_PROPERTIES), RowId(WEBDAV_LOCKS), RowId(WEBHOOK_EVENTS), RowId(X402_CAPACITY_PURCHASE_INTENTS),
    MatterAlias, ShareToken, ImageToken, SiteInviteToken, TeamInviteToken, InviteCode, ImageVerificationToken]

  /** The position of a kind in that order, which shows that no kind is listed twice. */
  function KindRank(kind: Kind): nat {
    match kind
    case RowId(table) =>
      if table == USER then 0 else if table == ORGANIZATION then 1 else if table == MATTERS then 2
      else if table == STORAGES then 3 else if table == SHARES then 4 else if table == IMAGE_HOSTINGS then 5
      else if table == BACKGROUND_JOBS then 6 else if table == DOWNLOADERS then 7 else if table == DOWNLOAD_TASKS then 8
      else if table == ACCOUNT then 9 else if table == API_KEY then 10 else if table == DEVICE_CODE then 11
      else if table == AUDIT_EVENTS then 12 else if table == MEMBER then 13 else if table == INVITATION then 14
      else if table == OAUTH_CLIENT then 15 else if table == OAUTH_RESOURCE then 16
      else if table == OAUTH_CLIENT_RESOURCE then 17 else if table == ANNOUNCEMENTS then 18
      else if table == CLOUD_TRAFFIC_REPORTS then 19 else if table == INVITE_CODES then 20
      else if table == LICENSE_BINDINGS then 21 else if table == NOTIFICATIONS then 22
      else if table == OBJECT_UPLOAD_SESSIONS then 23 else if table == ORG_QUOTA_ENTITLEMENTS then 24
      else if table == ORG_QUOTAS then 25 else if table == REMOTE_DOWNLOAD_USAGE_REPORTS then 26
      else if table == SHARE_RECIPIENTS then 27 else if table == SITE_INVITATIONS then 28
      else if table == STORAGE_USAGE_LEDGER then 29 else if table == TEAM_INVITE_LINKS then 30
      else if table == WEBDAV_DEAD_PROPERTIES then 31 else if table == WEBDAV_LOCKS then 32
      else if table == WEBHOOK_EVENTS then 33 else 34
    case MatterAlias => 35
    case ShareToken => 36
    case ImageToken => 37
    case SiteInviteToken => 38
    case TeamInviteToken => 39
    case InviteCode => 40
    case ImageVerificationToken => 41
  }

  lemma ValueKindHasRank(i: nat)
    requires i < |VALUE_KINDS|
    ensures KindRank(VALUE_KINDS[i]) == i
  {
  }

  lemma ValueKindsAreDistinct()
    ensures forall i, j | 0 <= i < j < |VALUE_KINDS| :: VALUE_KINDS[i] != VALUE_KINDS[j]
  {
    hide KindRank;
    forall i: nat | i < |VALUE_KINDS| ensures KindRank(VALUE_KINDS[i]) == i {
      ValueKindHasRank(i);
    }
  }

  /** Columns whose rows are deleted rather than renamed. */
  const INVALIDATED_TABLES: seq<Table> := [
    SESSION, VERIFICATION, DOWNLOADER_BOOTSTRAP_CREDENTIALS, OAUTH_ACCESS_TOKEN, OAUTH_REFRESH_TOKEN,
    OAUTH_PUSHED_AUTHORIZATION_REQUEST, OAUTH_CLIENT_ASSERTION, OAUTH_CONSENT, JWKS]

  const VALIDATE_ONLY_COLUMNS: seq<(Table, Column)> := [
    (SESSION, ID), (SESSION, TOKEN), (VERIFICATION, ID), (DOWNLOADER_BOOTSTRAP_CREDENTIALS, ID),
    (OAUTH_ACCESS_TOKEN, ID), (OAUTH_REFRESH_TOKEN, ID), (OAUTH_PUSHED_AUTHORIZATION_REQUEST, ID),
    (OAUTH_CLIENT_ASSERTION, ID), (OAUTH_CONSENT, ID)]

  const JSON_COLUMNS: seq<(Table, Column)> := [
    (API_KEY, METADATA), (AUDIT_EVENTS, METADATA), (NOTIFICATIONS, METADATA), (BACKGROUND_JOBS, METADATA),
    (BACKGROUND_JOBS, RESULT_METADATA), (DOWNLOAD_TASKS, EVENTS), (ORG_QUOTA_ENTITLEMENTS, METADATA),
    (RESOURCE_CHANGES, METADATA), (STATS_ROLLUPS_HOURLY, METADATA)]

  const REWRITTEN_COLUMNS: seq<(Table, Column)> := [
    (AUDIT_EVENTS, TARGET_ID), (AUDIT_EVENTS, ACTOR_REF), (AUDIT_EVENTS, EVENT_KEY), (RESOURCE_CHANGES, SCOPE_ID),
    (RESOURCE_CHANGES, RESOURCE_ID), (NOTIFICATIONS, REF_ID), (STORAGE_USAGE_LEDGER, RESOURCE_ID),
    (STORAGE_USAGE_LEDGER, EVENT_KEY), (CLOUD_TRAFFIC_REPORTS, SOURCE_ID), (ORG_QUOTA_ENTITLEMENTS, SOURCE_ID),
    (OBJECT_UPLOAD_SESSIONS, CREATED_BY)]

  /** References in which the empty string is a sentinel rather than a value. */
  predicate EmptyIsSentinel(table: Table, column: Column) {
    || (column == ORG_ID
        && table in {AUDIT_EVENTS, CLOUD_TRAFFIC_REPORTS, STATS_ROLLUPS_HOURLY, STORAGE_USAGE_LEDGER})
    || (column == STORAGE_ID && table == STORAGE_USAGE_LEDGER)
  }

  const ENTITY_TYPE_KINDS: map<string, Kind> := map[
    "user" := RowId(USER), "organization" := RowId(ORGANIZATION), "team" := RowId(ORGANIZATION),
    "quota" := RowId(ORGANIZATION), "matter" := RowId(MATTERS), "object" := RowId(MATTERS),
    "file" := RowId(MATTERS), "folder" := RowId(MATTERS), "storage" := RowId(STORAGES), "share" := RowId(SHARES),
    "image" := RowId(IMAGE_HOSTINGS), "image_hosting" := RowId(IMAGE_HOSTINGS),
    "background_job" := RowId(BACKGROUND_JOBS), "downloader" := RowId(DOWNLOADERS),
    "download_task" := RowId(DOWNLOAD_TASKS), "notification" := RowId(NOTIFICATIONS),
    "entitlement" := RowId(ORG_QUOTA_ENTITLEMENTS), "upload_session" := RowId(OBJECT_UPLOAD_SESSIONS)]

  const ACTOR_KINDS: map<string, Kind> := map[
    "user" := RowId(USER), "api_key" := RowId(API_KEY), "downloader" := RowId(DOWNLOADERS),
    "task-upload" := RowId(DOWNLOAD_TASKS)]

  const SCOPE_KINDS: map<string, Kind> := map["organization" := RowId(ORGANIZATION), "user" := RowId(USER)]

  const NOTIFICATION_KINDS: map<string, Kind> := map[
    "share" := RowId(SHARES), "team" := RowId(ORGANIZATION), "background_job" := RowId(BACKGROUND_JOBS)]

  const LEDGER_KINDS: map<string, Kind> := map[
    "matter" := RowId(MATTERS), "image_hosting" := RowId(IMAGE_HOSTINGS), "storage" := RowId(STORAGES)]

  const TRAFFIC_KINDS: map<string, Kind> := map[
    "object_download" := RowId(MATTERS), "webdav_download" := RowId(MATTERS), "direct_share" := RowId(SHARES),
    "landing_share" := RowId(SHARES), "image_hosting" := RowId(IMAGE_HOSTINGS),
    "custom_domain_image" := RowId(IMAGE_HOSTINGS)]

  /** A value column whose kind depends on the type named in a sibling column. */
  datatype Polymorphic = Polymorphic(table: Table, typeColumn: Column, valueColumn: Column, typeKinds: map<string, Kind>)

  const POLYMORPHIC_REFERENCES: seq<Polymorphic> := [
    Polymorphic(AUDIT_EVENTS, TARGET_TYPE, TARGET_ID, ENTITY_TYPE_KINDS),
    Polymorphic(AUDIT_EVENTS, ACTOR_TYPE, ACTOR_REF, ACTOR_KINDS),
    Polymorphic(RESOURCE_CHANGES, SCOPE_TYPE, SCOPE_ID, SCOPE_KINDS),
    Polymorphic(RESOURCE_CHANGES, RESOURCE_TYPE, RESOURCE_ID, ENTITY_TYPE_KINDS),
    Polymorphic(NOTIFICATIONS, REF_TYPE, REF_ID, NOTIFICATION_KINDS),
    Polymorphic(STORAGE_USAGE_LEDGER, RESOURCE_TYPE, RESOURCE_ID, LEDGER_KINDS),
    Polymorphic(CLOUD_TRAFFIC_REPORTS, SOURCE, SOURCE_ID, TRAFFIC_KINDS)]

  /** The types named in some polymorphic column. */
  const TYPE_NAMES: seq<string> := [
    "user", "organization", "team", "quota", "matter", "object", "file", "folder", "storage", "share", "image",
    "image_hosting", "background_job", "downloader", "download_task", "notification", "entitlement", "upload_session",
    "api_key", "task-upload", "object_download", "webdav_download", "direct_share", "landing_share", "custom_domain_image"]

  const JSON_KEY_KINDS: map<string, Kind> := map[
    "userId" := RowId(USER), "targetUserId" := RowId(USER), "creatorId" := RowId(USER), "createdBy" := RowId(USER),
    "invitedBy" := RowId(USER), "orgId" := RowId(ORGANIZATION), "organizationId" := RowId(ORGANIZATION),
    "targetOrgId" := RowId(ORGANIZATION), "teamId" := RowId(ORGANIZATION), "matterId" := RowId(MATTERS),
    "objectId" := RowId(MATTERS), "parentId" := RowId(MATTERS), "storageId" := RowId(STORAGES),
    "shareId" := RowId(SHARES), "imageId" := RowId(IMAGE_HOSTINGS), "imageHostingId" := RowId(IMAGE_HOSTINGS),
    "backgroundJobId" := RowId(BACKGROUND_JOBS), "jobId" := RowId(BACKGROUND_JOBS),
    "downloaderId" := RowId(DOWNLOADERS), "taskId" := RowId(DOWNLOAD_TASKS), "downloadTaskId" := RowId(DOWNLOAD_TASKS),
    "notificationId" := RowId(NOTIFICATIONS), "entitlementId" := RowId(ORG_QUOTA_ENTITLEMENTS),
    "uploadSessionId" := RowId(OBJECT_UPLOAD_SESSIONS), "matterIds" := RowId(MATTERS), "grantedBy" := RowId(USER),
    "updatedBy" := RowId(USER), "revokedBy" := RowId(USER)]

  /** The only kind whose values a governed column can hold: no column is renamed under two kinds. */
  function Owner(table: Table, column: Column): Option<Kind> {
    if column == ID then Some(RowId(table))
    else if column == CREATED_BY && table == OBJECT_UPLOAD_SESSIONS then None
    else if column in {USER_ID, REFERENCE_ID, INVITER_ID, CREATOR_ID, RECIPIENT_USER_ID, INVITED_BY, ACCEPTED_BY,
                       REVOKED_BY, CREATED_BY, USED_BY, CREATED_BY_USER_ID} then Some(RowId(USER))
    else if column in {ORGANIZATION_ID, ACTIVE_ORGANIZATION_ID, ORG_ID} then Some(RowId(ORGANIZATION))
    else if column in {MATTER_ID, OBJECT_ID, RESULT_OBJECT_ID} then Some(RowId(MATTERS))
    else if column == STORAGE_ID then Some(RowId(STORAGES))
    else if column == SHARE_ID then Some(RowId(SHARES))
    else if column == RETRIED_FROM_JOB_ID then Some(RowId(BACKGROUND_JOBS))
    else if column in {ASSIGNED_DOWNLOADER_ID, DOWNLOADER_ID} then Some(RowId(DOWNLOADERS))
    else if column == TASK_ID then Some(RowId(DOWNLOAD_TASKS))
    else if column == ALIAS then Some(MatterAlias)
    else if column == CODE then Some(InviteCode)
    else if column == VERIFICATION_TOKEN then Some(ImageVerificationToken)
    else if column == TOKEN then TokenKind(table)
    else None
  }

  function TokenKind(table: Table): Option<Kind> {
    if table == SHARES then Some(ShareToken)
    else if table == IMAGE_HOSTINGS then Some(ImageToken)
    else if table == SITE_INVITATIONS then Some(SiteInviteToken)
    else if table == TEAM_INVITE_LINKS then Some(TeamInviteToken)
    else None
  }

  lemma UserReferencesHaveOneOwner(target: Reference)
    requires target in References(RowId(USER))
    ensures Owner(target.table, target.column) == Some(RowId(USER))
  {
  }

  lemma OrganizationReferencesHaveOneOwner(target: Reference)
    requires target in References(RowId(ORGANIZATION))
    ensures Owner(target.table, target.column) == Some(RowId(ORGANIZATION))
  {
    hide Owner;
    var column := OrganizationColumn(target);
    ColumnOwnedByOrganization(target.table, column);
  }

  lemma OrganizationColumn(target: Reference) returns (column: Column)
    requires target in References(RowId(ORGANIZATION))
    ensures column == target.column && (column == ORGANIZATION_ID || column == ACTIVE_ORGANIZATION_ID || column == ORG_ID)
  {
    column := target.column;
  }

  lemma ColumnOwnedByOrganization(table: Table, column: Column)
    requires column == ORGANIZATION_ID || column == ACTIVE_ORGANIZATION_ID || column == ORG_ID
    ensures Owner(table, column) == Some(RowId(ORGANIZATION))
  {
  }

  lemma ShortReferencesHaveOneOwner(kind: Kind, target: Reference)
    requires kind != RowId(USER) && kind != RowId(ORGANIZATION)
    requires target in References(kind)
    ensures Owner(target.table, target.column) == Some(kind)
  {
  }

  lemma PrimaryHasOneOwner(kind: Kind)
    ensures Owner(PrimaryTable(kind), PrimaryColumn(kind)) == Some(kind)
  {
  }

  lemma TargetsHaveOneOwner(kind: Kind, target: Reference)
    requires target in Targets(kind)
    ensures Owner(target.table, target.column) == Some(kind)
  {
    if target == Primary(kind) {
      PrimaryHasOneOwner(kind);
    } else {
      assert target in References(kind);
      if kind == RowId(USER) {
        UserReferencesHaveOneOwner(target);
      } else if kind == RowId(ORGANIZATION) {
        OrganizationReferencesHaveOneOwner(target);
      } else {
        ShortReferencesHaveOneOwner(kind, target);
      }
    }
  }

  const EMBEDDED_COLUMNS: seq<(Table, Column)> := JSON_COLUMNS + REWRITTEN_COLUMNS

  /** The tables that hold a JSON or rewritten column. */
  predicate HoldsEmbedded(table: Table) {
    table in {API_KEY, AUDIT_EVENTS, NOTIFICATIONS, BACKGROUND_JOBS, DOWNLOAD_TASKS, ORG_QUOTA_ENTITLEMENTS,
              RESOURCE_CHANGES, STATS_ROLLUPS_HOURLY, STORAGE_USAGE_LEDGER, CLOUD_TRAFFIC_REPORTS,
              OBJECT_UPLOAD_SESSIONS}
  }

  lemma JsonColumnsAreSeparate(table: Table, column: Column)
    requires (table, column) in JSON_COLUMNS
    ensures Owner(table, column).None? && HoldsEmbedded(table)
  {
  }

  lemma RewrittenTablesHoldEmbedded(table: Table, column: Column)
    requires (table, column) in REWRITTEN_COLUMNS
    ensures HoldsEmbedded(table)
  {
  }

  lemma RewrittenColumnsAreSeparate(table: Table, column: Column)
    requires (table, column) in REWRITTEN_COLUMNS
    ensures Owner(table, column).None? && HoldsEmbedded(table)
  {
    RewrittenTablesHoldEmbedded(table, column);
  }

  /** The columns shipped as exact values are never renamed directly. */
  lemma EmbeddedColumnsAreSeparate(table: Table, column: Column)
    requires (table, column) in EMBEDDED_COLUMNS
    ensures Owner(table, column).None? && HoldsEmbedded(table)
  {
    if (table, column) in JSON_COLUMNS {
      JsonColumnsAreSeparate(table, column);
    } else {
      RewrittenColumnsAreSeparate(table, column);
    }
  }

  /** Tables that are emptied hold nothing that is rewritten. */
  lemma NothingEmbeddedIsInvalidated(table: Table)
    requires table in INVALIDATED_TABLES
    ensures !HoldsEmbedded(table)
  {
  }
}

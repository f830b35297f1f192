/** The tables behind GitHub connections (packages/integration-github, GitHubWebhooks.ts and
    GitHubIntegrations.ts; packages/server-core, github/ProjectGithub.ts) and the transactions
    over them. A transaction that breaks a unique index is rolled back as a whole. */
module GitHubConnections {
  import opened Wrappers

  datatype Status = Active | Broken | Disconnected

  const LIVE: set<Status> := {Active, Broken}

  datatype Integration = Integration(org: string, status: Status)
  datatype Link = Link(project: string, org: string, integration: nat, status: Status)
  datatype Repo = Repo(org: string, repoId: string, status: Status)
  datatype Session = Session(org: string, installationId: Option<string>, completed: bool, expiresAt: int)

  /** `installs` maps an integration to its installation id; `repos` is keyed by link. */
  datatype Db = Db(
    integrations: map<nat, Integration>, installs: map<nat, string>, links: map<nat, Link>, repos: map<nat, Repo>,
    sessions: map<nat, Session>)

  /** Keys and unique indexes of the schema. */
  predicate Constraints(db: Db) {
    && (forall i | i in db.installs :: i in db.integrations)
    && (forall i, j | i in db.installs && j in db.installs && db.installs[i] == db.installs[j] :: i == j)
    && (forall i, j | i in db.integrations && j in db.integrations && db.integrations[i].status.Active?
                      && db.integrations[j].status.Active? && db.integrations[i].org == db.integrations[j].org :: i == j)
    && (forall l | l in db.links ::
          db.links[l].integration in db.integrations && db.integrations[db.links[l].integration].org == db.links[l].org)
    && (forall l, m | l in db.links && m in db.links && db.links[l].status.Active? && db.links[m].status.Active?
                      && db.links[l].project == db.links[m].project :: l == m)
    && (forall l | l in db.repos :: l in db.links && db.links[l].org == db.repos[l].org)
    && (forall l, m | l in db.repos && m in db.repos && db.repos[l].status.Active? && db.repos[m].status.Active?
                      && db.repos[l].org == db.repos[m].org && db.repos[l].repoId == db.repos[m].repoId :: l == m)
  }

  function Commit(before: Db, after: Db): Db {
    if Constraints(after) then after else before
  }

  // ---------- statements ----------

  function SetLinks(links: map<nat, Link>, ids: set<nat>, status: Status): map<nat, Link> {
    map l | l in links :: if l in ids then links[l].(status := status) else links[l]
  }

  function SetRepos(repos: map<nat, Repo>, ids: set<nat>, status: Status, from: set<Status>): map<nat, Repo> {
    map l | l in repos :: if l in ids && repos[l].status in from then repos[l].(status := status) else repos[l]
  }

  function LinksOf(db: Db, integration: nat, from: set<Status>): set<nat> {
    set l | l in db.links && db.links[l].integration == integration && db.links[l].status in from
  }

  /** connectedRepoLinks, and the same join over several repositories. */
  function RepoLinksOf(db: Db, integration: nat, org: string, repoIds: set<string>, from: set<Status>): set<nat> {
    set l | l in db.repos && l in db.links && db.links[l].integration == integration && db.repos[l].org == org
            && db.repos[l].repoId in repoIds && db.repos[l].status in from && db.links[l].status in from
  }

  /** installationRow: the integration that owns an installation. */
  predicate IsInstallation(db: Db, installationId: string, integration: nat) {
    integration in db.installs && db.installs[integration] == installationId
  }

  // ---------- webhooks ----------

  /** A delivery acts on the integration its handler looked up before the transaction, which
      may have been replaced or removed in between: `integration` and `org` are arbitrary. */
  datatype Webhook =
    | InstallationDeleted(integration: nat)
    | InstallationSuspended(integration: nat)
    | InstallationUnsuspended(integration: nat)
    | RepositoriesRemoved(integration: nat, org: string, repoIds: set<string>)
    | RepositoryArchived(integration: nat, org: string, repoId: string)
    | RepositoryUnarchived(integration: nat, org: string, repoId: string)
    | RepositoryDeleted(integration: nat, org: string, repoId: string)
    | RepositoryTransferred(receiver: Option<nat>, repoId: string)

  function UpdateInstallation(db: Db, id: nat, status: Status, from: set<Status>): Db {
    var ids := LinksOf(db, id, from);
    Db(if id in db.integrations && db.integrations[id].status in from
       then db.integrations[id := db.integrations[id].(status := status)] else db.integrations,
       if status.Disconnected? then db.installs - {id} else db.installs,
       SetLinks(db.links, ids, status), SetRepos(db.repos, ids, status, from), db.sessions)
  }

  function UpdateRepositories(db: Db, ids: set<nat>, status: Status, from: set<Status>): Db {
    db.(links := SetLinks(db.links, ids, status), repos := SetRepos(db.repos, ids, status, from))
  }

  /** The live links of a repository that the receiving installation does not own. */
  function LostLinks(db: Db, receiver: Option<nat>, repoId: string): set<nat> {
    set l | l in db.repos && l in db.links && db.repos[l].repoId == repoId && db.repos[l].status in LIVE
            && db.links[l].status in LIVE && Some(db.links[l].integration) != receiver
  }

  function Deliver(db: Db, hook: Webhook): Db {
    match hook
    case InstallationDeleted(id) => UpdateInstallation(db, id, Disconnected, LIVE)
    case InstallationSuspended(id) => UpdateInstallation(db, id, Broken, LIVE)
    case InstallationUnsuspended(id) => UpdateInstallation(db, id, Active, {Broken})
    case _ => Late(db, hook, LinksRead(db, hook))
  }

  // The three repository handlers read the ids of their links without locking them, and then
  // update links by id alone and repositories under a status guard. Other transactions may
  // commit between the read and the update; `Deliver` is the case in which none does.

  predicate ReadsFirst(hook: Webhook) {
    !hook.InstallationDeleted? && !hook.InstallationSuspended? && !hook.InstallationUnsuspended?
  }

  function LinksRead(db: Db, hook: Webhook): set<nat>
    requires ReadsFirst(hook)
  {
    match hook
    case RepositoriesRemoved(id, org, repoIds) => RepoLinksOf(db, id, org, repoIds, From(hook))
    case RepositoryArchived(id, org, repoId) => RepoLinksOf(db, id, org, {repoId}, From(hook))
    case RepositoryUnarchived(id, org, repoId) => RepoLinksOf(db, id, org, {repoId}, From(hook))
    case RepositoryDeleted(id, org, repoId) => RepoLinksOf(db, id, org, {repoId}, From(hook))
    case RepositoryTransferred(receiver, repoId) => LostLinks(db, receiver, repoId)
  }

  function Target(hook: Webhook): Status
    requires ReadsFirst(hook)
  {
    if hook.RepositoriesRemoved? || hook.RepositoryDeleted? then Disconnected
    else if hook.RepositoryUnarchived? then Active
    else Broken
  }

  function From(hook: Webhook): set<Status>
    requires ReadsFirst(hook)
  {
    if hook.RepositoryArchived? then {Active} else if hook.RepositoryUnarchived? then {Broken} else LIVE
  }

  /** The update of a delivery that has read `ids` earlier. */
  function Late(db: Db, hook: Webhook, ids: set<nat>): Db
    requires ReadsFirst(hook)
  {
    UpdateRepositories(db, ids, Target(hook), From(hook))
  }

  // ---------- installing ----------

  /** The session can still be claimed for this installation. */
  predicate Claimable(db: Db, session: nat, installationId: string, now: int) {
    && session in db.sessions && !db.sessions[session].completed && db.sessions[session].expiresAt > now
    && (db.sessions[session].installationId.None? || db.sessions[session].installationId.value == installationId)
  }

  function CompleteSetup(db: Db, session: nat, installationId: string, now: int): Db {
    if Claimable(db, session, installationId, now)
    then db.(sessions := db.sessions[session := db.sessions[session].(installationId := Some(installationId))])
    else db
  }

  function Previous(db: Db, org: string): set<nat> {
    set i | i in db.integrations && i in db.installs && db.integrations[i].org == org
  }

  function DisconnectLive(integrations: map<nat, Integration>, org: string): map<nat, Integration> {
    map i | i in integrations ::
      if integrations[i].org == org && integrations[i].status in LIVE
      then integrations[i].(status := Disconnected) else integrations[i]
  }

  function Repoint(links: map<nat, Link>, org: string, previous: set<nat>, created: nat): map<nat, Link> {
    map l | l in links ::
      if links[l].org == org && links[l].status in LIVE && links[l].integration in previous
      then links[l].(integration := created) else links[l]
  }

  /** Claim the session, replace the organization's integration, re-point its live links.
      `previous` are the organization's installed integrations as the transaction read them,
      without a lock. */
  function ConnectLate(db: Db, session: nat, installationId: string, created: nat, previous: set<nat>, now: int): Db {
    if !Claimable(db, session, installationId, now) || created in db.integrations then db
    else
      var org := db.sessions[session].org;
      Db(DisconnectLive(db.integrations, org)[created := Integration(org, Active)],
         (db.installs - previous)[created := installationId],
         Repoint(db.links, org, previous, created), db.repos,
         db.sessions[session := db.sessions[session].(installationId := Some(installationId), completed := true)])
  }

  /** The same when nothing commits between the read and the updates. */
  function ConnectInstallation(db: Db, session: nat, installationId: string, created: nat, now: int): Db {
    if session !in db.sessions then db
    else ConnectLate(db, session, installationId, created, Previous(db, db.sessions[session].org), now)
  }

  // ---------- projects ----------

  function ActiveLinks(db: Db, project: string): set<nat> {
    set l | l in db.links && db.links[l].project == project && db.links[l].status.Active?
  }

  function UnlinkProject(db: Db, project: string): Db {
    var ids := ActiveLinks(db, project);
    db.(links := SetLinks(db.links, ids, Disconnected), repos := SetRepos(db.repos, ids, Disconnected, LIVE + {Disconnected}))
  }

  /** Connect a repository through the integration that was looked up before the transaction. */
  function LinkProject(db: Db, link: nat, project: string, org: string, integration: nat, repoId: string): Db {
    if link in db.links || link in db.repos then db
    else
      var t := UnlinkProject(db, project);
      t.(links := t.links[link := Link(project, org, integration, Active)], repos := t.repos[link := Repo(org, repoId, Active)])
  }

  // ---------- what the statements do, row by row ----------

  /** Links keep everything but their status, which is `status` for exactly these. */
  ghost predicate LinksSet(before: map<nat, Link>, after: map<nat, Link>, ids: set<nat>, status: Status) {
    && after.Keys == before.Keys
    && forall l | l in before ::
         && after[l].project == before[l].project && after[l].org == before[l].org
         && after[l].integration == before[l].integration
         && after[l].status == if l in ids then status else before[l].status
  }

  /** Repositories likewise, if they have one of the statuses `from`. */
  ghost predicate ReposSet(before: map<nat, Repo>, after: map<nat, Repo>, ids: set<nat>, status: Status, from: set<Status>) {
    && after.Keys == before.Keys
    && forall l | l in before ::
         && after[l].org == before[l].org && after[l].repoId == before[l].repoId
         && after[l].status == if l in ids && before[l].status in from then status else before[l].status
  }

  /** An installation changes its status, and its links and their repositories with it; once
      disconnected it is no longer installed. */
  ghost predicate InstallationChanges(before: Db, after: Db, id: nat, status: Status, from: set<Status>) {
    && after.integrations.Keys == before.integrations.Keys && after.sessions == before.sessions
    && (forall i | i in before.integrations ::
          && after.integrations[i].org == before.integrations[i].org
          && after.integrations[i].status ==
             if i == id && before.integrations[i].status in from then status else before.integrations[i].status)
    && (forall i :: i in after.installs <==> i in before.installs && !(i == id && status == Disconnected))
    && (forall i | i in after.installs :: after.installs[i] == before.installs[i])
    && exists ids: set<nat> ::
         && (forall l :: l in ids <==>
               l in before.links && before.links[l].integration == id && before.links[l].status in from)
         && LinksSet(before.links, after.links, ids, status) && ReposSet(before.repos, after.repos, ids, status, from)
  }

  lemma InstallationChanged(db: Db, id: nat, status: Status, from: set<Status>)
    ensures InstallationChanges(db, UpdateInstallation(db, id, status, from), id, status, from)
  {
    var t := UpdateInstallation(db, id, status, from);
    var ids := LinksOf(db, id, from);
    assert LinksSet(db.links, t.links, ids, status) && ReposSet(db.repos, t.repos, ids, status, from);
  }

  ghost predicate RepositoriesChange(before: Db, after: Db, ids: set<nat>, status: Status, from: set<Status>) {
    && LinksSet(before.links, after.links, ids, status) && ReposSet(before.repos, after.repos, ids, status, from)
    && after.integrations == before.integrations && after.installs == before.installs && after.sessions == before.sessions
  }

  lemma RepositoriesChanged(db: Db, ids: set<nat>, status: Status, from: set<Status>)
    ensures RepositoriesChange(db, UpdateRepositories(db, ids, status, from), ids, status, from)
  {
  }

  /** Every integration of the organization is disconnected and no longer installed; a new
      active one is installed instead. */
  ghost predicate IntegrationReplaced(before: Db, after: Db, org: string, installationId: string, created: nat) {
    && after.integrations.Keys == before.integrations.Keys + {created}
    && after.integrations[created] == Integration(org, Active)
    && (forall i | i in before.integrations && i != created ::
          && after.integrations[i].org == before.integrations[i].org
          && after.integrations[i].status ==
             if before.integrations[i].org == org then Disconnected else before.integrations[i].status)
    && created in after.installs && after.installs[created] == installationId
    && (forall i | i != created :: i in after.installs <==>
          i in before.installs && !(i in before.integrations && before.integrations[i].org == org))
    && (forall i | i in after.installs && i != created :: after.installs[i] == before.installs[i])
  }

  /** The organization's links that are not disconnected lead to the new integration if theirs
      was an installed one of the organization; no other link changes, and no status. */
  ghost predicate LinksRepointed(before: Db, after: Db, org: string, created: nat) {
    && after.links.Keys == before.links.Keys
    && forall l | l in before.links ::
         var i := before.links[l].integration;
         && after.links[l].project == before.links[l].project && after.links[l].org == before.links[l].org
         && after.links[l].status == before.links[l].status
         && after.links[l].integration ==
            if before.links[l].org == org && before.links[l].status != Disconnected
               && i in before.integrations && i in before.installs && before.integrations[i].org == org
            then created else i
  }

  /** The session is completed with this installation. */
  ghost predicate SessionCompleted(before: Db, after: Db, session: nat, installationId: string) {
    && after.sessions.Keys == before.sessions.Keys && session in before.sessions
    && (forall s | s in before.sessions && s != session :: after.sessions[s] == before.sessions[s])
    && after.sessions[session]
       == Session(before.sessions[session].org, Some(installationId), true, before.sessions[session].expiresAt)
  }

  /** The session is known, open, in time and bound to no other installation. */
  ghost predicate MayInstall(db: Db, session: nat, installationId: string, now: int) {
    && session in db.sessions && !db.sessions[session].completed && now < db.sessions[session].expiresAt
    && (db.sessions[session].installationId == None || db.sessions[session].installationId == Some(installationId))
  }

  ghost predicate Installs(before: Db, after: Db, session: nat, installationId: string, created: nat) {
    && session in before.sessions && after.repos == before.repos
    && IntegrationReplaced(before, after, before.sessions[session].org, installationId, created)
    && LinksRepointed(before, after, before.sessions[session].org, created)
    && SessionCompleted(before, after, session, installationId)
  }

  lemma Replaced(db: Db, session: nat, installationId: string, created: nat, now: int)
    requires created !in db.integrations && Claimable(db, session, installationId, now)
    ensures IntegrationReplaced(db, ConnectInstallation(db, session, installationId, created, now), db.sessions[session].org,
                                installationId, created)
  {
    hide Repoint;
  }

  lemma Repointed(db: Db, session: nat, installationId: string, created: nat, now: int)
    requires created !in db.integrations && Claimable(db, session, installationId, now)
    ensures LinksRepointed(db, ConnectInstallation(db, session, installationId, created, now), db.sessions[session].org, created)
  {
    hide DisconnectLive;
  }

  lemma Completed(db: Db, session: nat, installationId: string, created: nat, now: int)
    requires created !in db.integrations && Claimable(db, session, installationId, now)
    ensures SessionCompleted(db, ConnectInstallation(db, session, installationId, created, now), session, installationId)
    ensures ConnectInstallation(db, session, installationId, created, now).repos == db.repos
  {
    hide DisconnectLive, Repoint, Previous;
  }

  /** The transaction installs exactly when it may, and what it does then. */
  lemma Installed(db: Db, session: nat, installationId: string, created: nat, now: int)
    requires created !in db.integrations
    ensures var t := ConnectInstallation(db, session, installationId, created, now);
            if MayInstall(db, session, installationId, now) then Installs(db, t, session, installationId, created) else t == db
  {
    hide IntegrationReplaced, LinksRepointed, SessionCompleted;
    if MayInstall(db, session, installationId, now) {
      Replaced(db, session, installationId, created, now);
      Repointed(db, session, installationId, created, now);
      Completed(db, session, installationId, created, now);
    }
  }

  /** The links a repository delivery is about. */
  ghost predicate AreLinksOf(db: Db, ids: set<nat>, integration: nat, org: string, repoIds: set<string>, from: set<Status>) {
    forall l :: l in ids <==>
      && l in db.repos && l in db.links && db.links[l].integration == integration && db.repos[l].org == org
      && db.repos[l].repoId in repoIds && db.repos[l].status in from && db.links[l].status in from
  }

  /** What a delivery does to the rows when nothing commits between its read and its update. */
  ghost predicate Effect(before: Db, after: Db, hook: Webhook) {
    match hook
    case InstallationDeleted(id) => InstallationChanges(before, after, id, Disconnected, {Active, Broken})
    case InstallationSuspended(id) => InstallationChanges(before, after, id, Broken, {Active, Broken})
    case InstallationUnsuspended(id) => InstallationChanges(before, after, id, Active, {Broken})
    case RepositoriesRemoved(id, org, repoIds) =>
      exists ids :: AreLinksOf(before, ids, id, org, repoIds, {Active, Broken})
                    && RepositoriesChange(before, after, ids, Disconnected, {Active, Broken})
    case RepositoryArchived(id, org, repoId) =>
      exists ids :: AreLinksOf(before, ids, id, org, {repoId}, {Active}) && RepositoriesChange(before, after, ids, Broken, {Active})
    case RepositoryUnarchived(id, org, repoId) =>
      exists ids :: AreLinksOf(before, ids, id, org, {repoId}, {Broken}) && RepositoriesChange(before, after, ids, Active, {Broken})
    case RepositoryDeleted(id, org, repoId) =>
      exists ids :: AreLinksOf(before, ids, id, org, {repoId}, {Active, Broken})
                    && RepositoriesChange(before, after, ids, Disconnected, {Active, Broken})
    case RepositoryTransferred(receiver, repoId) =>
      exists ids ::
        && (forall l :: l in ids <==>
              && l in before.repos && l in before.links && before.repos[l].repoId == repoId
              && before.repos[l].status != Disconnected && before.links[l].status != Disconnected
              && receiver != Some(before.links[l].integration))
        && RepositoriesChange(before, after, ids, Broken, {Active, Broken})
  }

  lemma DeliveryHasEffect(db: Db, hook: Webhook)
    ensures Effect(db, Deliver(db, hook), hook)
  {
    hide InstallationChanges, RepositoriesChange;
    match hook
    case InstallationDeleted(id) => InstallationChanged(db, id, Disconnected, LIVE);
    case InstallationSuspended(id) => InstallationChanged(db, id, Broken, LIVE);
    case InstallationUnsuspended(id) => InstallationChanged(db, id, Active, {Broken});
    case RepositoriesRemoved(id, org, repoIds) =>
      RepositoriesChanged(db, LinksRead(db, hook), Disconnected, LIVE);
      assert AreLinksOf(db, LinksRead(db, hook), id, org, repoIds, LIVE);
    case RepositoryArchived(id, org, repoId) =>
      RepositoriesChanged(db, LinksRead(db, hook), Broken, {Active});
      assert AreLinksOf(db, LinksRead(db, hook), id, org, {repoId}, {Active});
    case RepositoryUnarchived(id, org, repoId) =>
      RepositoriesChanged(db, LinksRead(db, hook), Active, {Broken});
      assert AreLinksOf(db, LinksRead(db, hook), id, org, {repoId}, {Broken});
    case RepositoryDeleted(id, org, repoId) =>
      RepositoriesChanged(db, LinksRead(db, hook), Disconnected, LIVE);
      assert AreLinksOf(db, LinksRead(db, hook), id, org, {repoId}, LIVE);
    case RepositoryTransferred(receiver, repoId) =>
      RepositoriesChanged(db, LinksRead(db, hook), Broken, LIVE);
      var ids := LinksRead(db, hook);
      assert forall l :: l in ids <==>
              && l in db.repos && l in db.links && db.repos[l].repoId == repoId
              && db.repos[l].status != Disconnected && db.links[l].status != Disconnected
              && receiver != Some(db.links[l].integration);
  }

  /** Linking a project disconnects its active links and their repositories and adds the new
      link and repository; nothing else changes. */
  ghost predicate Relinks(before: Db, after: Db, link: nat, project: string, org: string, integration: nat, repoId: string) {
    && after.integrations == before.integrations && after.installs == before.installs && after.sessions == before.sessions
    && after.links.Keys == before.links.Keys + {link} && after.repos.Keys == before.repos.Keys + {link}
    && after.links[link] == Link(project, org, integration, Active) && after.repos[link] == Repo(org, repoId, Active)
    && (forall l | l in before.links && l != link ::
          after.links[l] == if before.links[l].project == project && before.links[l].status == Active
                            then Link(project, before.links[l].org, before.links[l].integration, Disconnected) else before.links[l])
    && (forall l | l in before.repos && l != link ::
          after.repos[l] == if l in before.links && before.links[l].project == project && before.links[l].status == Active
                            then Repo(before.repos[l].org, before.repos[l].repoId, Disconnected) else before.repos[l])
  }

  lemma EveryStatus(s: Status)
    ensures s in LIVE + {Disconnected}
  {
    match s
    case Active =>
    case Broken =>
    case Disconnected =>
  }

  lemma LinksUnlinked(db: Db, project: string)
    ensures UnlinkProject(db, project).links.Keys == db.links.Keys
    ensures forall l | l in db.links ::
              UnlinkProject(db, project).links[l]
              == if db.links[l].project == project && db.links[l].status == Active
                 then Link(project, db.links[l].org, db.links[l].integration, Disconnected) else db.links[l]
  {
    hide SetRepos;
  }

  lemma ReposUnlinked(db: Db, project: string)
    ensures UnlinkProject(db, project).repos.Keys == db.repos.Keys
    ensures forall l | l in db.repos ::
              UnlinkProject(db, project).repos[l]
              == if l in db.links && db.links[l].project == project && db.links[l].status == Active
                 then Repo(db.repos[l].org, db.repos[l].repoId, Disconnected) else db.repos[l]
  {
    hide SetLinks;
    forall l | l in db.repos ensures db.repos[l].status in LIVE + {Disconnected} {
      EveryStatus(db.repos[l].status);
    }
  }

  lemma ProjectIsRelinked(db: Db, link: nat, project: string, org: string, integration: nat, repoId: string)
    ensures var t := LinkProject(db, link, project, org, integration, repoId);
            if link in db.links || link in db.repos then t == db
            else Relinks(db, t, link, project, org, integration, repoId)
  {
    LinksUnlinked(db, project);
    ReposUnlinked(db, project);
    UnlinkFrame(db, project);
    hide UnlinkProject;
  }

  // ---------- the transactions, statement by statement ----------

  class GitHubStore {
    var db: Db

    constructor ()
      ensures db == Db(map[], map[], map[], map[], map[])
    {
      db := Db(map[], map[], map[], map[], map[]);
    }

    /** updateInstallation: the integration, then its links, then their repositories, and on a
        disconnection the installation itself. */
    method ChangeInstallation(installationId: string, status: Status, from: set<Status>)
      requires Constraints(db)
      modifies this
      ensures forall i | IsInstallation(old(db), installationId, i) ::
                exists t :: InstallationChanges(old(db), t, i, status, from) && db == Commit(old(db), t)
      ensures (forall i | i in old(db).installs :: !IsInstallation(old(db), installationId, i)) ==> db == old(db)
    {
      if id :| id in db.installs && db.installs[id] == installationId {
        InstallationChanged(db, id, status, from);
        hide InstallationChanges;
        var t := db;
        if t.integrations[id].status in from {
          t := t.(integrations := t.integrations[id := t.integrations[id].(status := status)]);
        }
        var ids := LinksOf(t, id, from);
        t := t.(links := SetLinks(t.links, ids, status));
        t := t.(repos := SetRepos(t.repos, ids, status, from));
        if status.Disconnected? {
          t := t.(installs := t.installs - {id});
        }
        assert t == UpdateInstallation(db, id, status, from);
        if Constraints(t) {
          db := t;
        }
      }
    }

    /** The unlocked read with which repositoriesRemoved and setRepositoryConnectionStatus begin. */
    method ReadLinks(integration: nat, org: string, repoIds: set<string>, from: set<Status>) returns (ids: set<nat>)
      ensures ids <= db.links.Keys
      ensures forall l :: l in ids <==>
                l in db.repos && l in db.links && db.links[l].integration == integration && db.repos[l].org == org
                && db.repos[l].repoId in repoIds && db.repos[l].status in from && db.links[l].status in from
    {
      ids := {};
      var rest := db.repos.Keys;
      while rest != {}
        invariant rest <= db.repos.Keys
        invariant ids == RepoLinksOf(db, integration, org, repoIds, from) - rest
        decreases |rest|
      {
        var l :| l in rest;
        rest := rest - {l};
        if l in db.links && db.links[l].integration == integration && db.repos[l].org == org
           && db.repos[l].repoId in repoIds && db.repos[l].status in from && db.links[l].status in from {
          ids := ids + {l};
        }
      }
    }

    /** Their update: links by id, whatever became of them since they were read, and then those
        repositories that still have a status of `from`. When it goes through, it keeps the
        invariants exactly when it disconnects, or none of the links is disconnected by now. */
    method WriteRepositories(ids: set<nat>, status: Status, from: set<Status>)
      modifies this
      ensures RepositoriesChange(old(db), UpdateRepositories(old(db), ids, status, from), ids, status, from)
      ensures db == Commit(old(db), UpdateRepositories(old(db), ids, status, from))
      ensures Inv(old(db)) && ids <= old(db).links.Keys && from <= LIVE && from + {status} >= LIVE
              && Constraints(UpdateRepositories(old(db), ids, status, from)) ==>
                (Inv(db) <==> status.Disconnected? || forall l | l in ids :: !LinkGone(old(db), l))
    {
      RepositoriesChanged(db, ids, status, from);
      if Inv(db) && ids <= db.links.Keys && from <= LIVE && from + {status} >= LIVE
         && Constraints(UpdateRepositories(db, ids, status, from)) {
        RepositoriesKeepIff(db, ids, status, from);
      }
      hide Constraints, Inv, RepositoriesChange;
      var t := db.(links := SetLinks(db.links, ids, status));
      t := t.(repos := SetRepos(t.repos, ids, status, from));
      if Constraints(t) {
        db := t;
      }
    }

    /** Both in one go. */
    method ChangeRepositories(installationId: string, repoIds: set<string>, status: Status, from: set<Status>)
      requires Constraints(db)
      modifies this
      ensures forall i | IsInstallation(old(db), installationId, i) :: exists t, ids ::
                && AreLinksOf(old(db), ids, i, old(db).integrations[i].org, repoIds, from)
                && RepositoriesChange(old(db), t, ids, status, from) && db == Commit(old(db), t)
      ensures (forall i | i in old(db).installs :: !IsInstallation(old(db), installationId, i)) ==> db == old(db)
    {
      if id :| id in db.installs && db.installs[id] == installationId {
        var org := db.integrations[id].org;
        var ids := ReadLinks(id, org, repoIds, from);
        assert AreLinksOf(db, ids, id, org, repoIds, from);
        assert forall i | IsInstallation(db, installationId, i) :: i == id;
        hide AreLinksOf, RepositoriesChange, Constraints, UpdateRepositories, Inv, Commit;
        WriteRepositories(ids, status, from);
      }
    }

    /** connectInstallation: claim the session, disconnect the old integration, remove its
        installation, insert the new one, re-point the live links. */
    method Install(session: nat, installationId: string, created: nat, now: int)
      requires created !in db.integrations
      modifies this
      ensures !MayInstall(old(db), session, installationId, now) ==> db == old(db)
      ensures MayInstall(old(db), session, installationId, now) ==>
                exists t :: Installs(old(db), t, session, installationId, created) && db == Commit(old(db), t)
      ensures db == Commit(old(db), ConnectInstallation(old(db), session, installationId, created, now))
    {
      hide Installs;
      Installed(db, session, installationId, created, now);
      if !Claimable(db, session, installationId, now) {
        return;
      }
      hide Repoint, DisconnectLive, Constraints, Previous;
      var org := db.sessions[session].org;
      var t := db.(sessions := db.sessions[session := db.sessions[session].(completed := true, installationId := Some(installationId))]);
      var previous := Previous(db, org);
      t := t.(integrations := DisconnectLive(t.integrations, org));
      if previous != {} {
        t := t.(installs := t.installs - previous);
      }
      t := t.(integrations := t.integrations[created := Integration(org, Active)]);
      t := t.(installs := t.installs[created := installationId]);
      if previous != {} {
        t := t.(links := Repoint(t.links, org, previous, created));
      } else {
        NothingToRepoint(db, org, created);
      }
      if Constraints(t) {
        db := t;
      }
    }
  }

  lemma NothingToRepoint(db: Db, org: string, created: nat)
    requires Previous(db, org) == {}
    ensures db.installs - Previous(db, org) == db.installs
    ensures Repoint(db.links, org, Previous(db, org), created) == db.links
  {
  }

  // ---------- the invariants ----------

  predicate IsLive(db: Db, i: nat) { i in db.integrations && db.integrations[i].status in LIVE }

  ghost predicate OneLiveIntegration(db: Db) {
    forall i, j | IsLive(db, i) && IsLive(db, j) && db.integrations[i].org == db.integrations[j].org :: i == j
  }

  ghost predicate LiveIffInstalled(db: Db) {
    forall i | i in db.integrations :: IsLive(db, i) <==> i in db.installs
  }

  ghost predicate LiveLinksPointAtLive(db: Db) {
    forall l | l in db.links && db.links[l].status in LIVE :: IsLive(db, db.links[l].integration)
  }

  ghost predicate StatusesAgree(db: Db) {
    db.links.Keys == db.repos.Keys && forall l | l in db.links :: db.links[l].status == db.repos[l].status
  }

  ghost predicate Inv(db: Db) {
    Constraints(db) && OneLiveIntegration(db) && LiveIffInstalled(db) && LiveLinksPointAtLive(db) && StatusesAgree(db)
  }

  lemma InstallationIntegrations(db: Db, id: nat, status: Status, from: set<Status>)
    requires Inv(db) && from <= LIVE && (status.Disconnected? ==> from == LIVE)
    ensures var t := UpdateInstallation(db, id, status, from);
            OneLiveIntegration(t) && LiveIffInstalled(t)
  {
    ConstraintFacts(db);
    hide Constraints, LiveLinksPointAtLive, StatusesAgree;
  }

  lemma LiveStays(db: Db, id: nat, status: Status, from: set<Status>, i: nat)
    requires IsLive(db, i) && (i == id ==> !status.Disconnected?)
    ensures IsLive(UpdateInstallation(db, id, status, from), i)
  {
  }

  lemma LinkBefore(db: Db, id: nat, status: Status, from: set<Status>, l: nat)
    requires from <= LIVE && (status.Disconnected? ==> from == LIVE) && l in db.links
    ensures var t := UpdateInstallation(db, id, status, from);
            && l in t.links && t.links[l].integration == db.links[l].integration
            && (t.links[l].status in LIVE ==>
                  db.links[l].status in LIVE && (db.links[l].integration == id ==> !status.Disconnected?))
  {
  }

  lemma InstallationLinks(db: Db, id: nat, status: Status, from: set<Status>)
    requires Inv(db) && from <= LIVE && (status.Disconnected? ==> from == LIVE)
    ensures LiveLinksPointAtLive(UpdateInstallation(db, id, status, from))
  {
    var t := UpdateInstallation(db, id, status, from);
    forall l | l in t.links && t.links[l].status in LIVE ensures IsLive(t, t.links[l].integration) {
      LinkBefore(db, id, status, from, l);
      var i := db.links[l].integration;
      assert IsLive(db, i);
      LiveStays(db, id, status, from, i);
    }
    hide Inv, Constraints, UpdateInstallation, IsLive;
  }

  lemma InstallationStatuses(db: Db, id: nat, status: Status, from: set<Status>)
    requires StatusesAgree(db)
    ensures StatusesAgree(UpdateInstallation(db, id, status, from))
  {
  }

  lemma InstallationKeeps(db: Db, id: nat, status: Status, from: set<Status>)
    requires Inv(db) && from <= LIVE && (status.Disconnected? ==> from == LIVE)
    requires Constraints(UpdateInstallation(db, id, status, from))
    ensures Inv(UpdateInstallation(db, id, status, from))
  {
    InstallationIntegrations(db, id, status, from);
    InstallationLinks(db, id, status, from);
    InstallationStatuses(db, id, status, from);
    hide Constraints, OneLiveIntegration, LiveIffInstalled, LiveLinksPointAtLive, StatusesAgree;
  }

  lemma ConstraintFacts(db: Db)
    requires Constraints(db)
    ensures forall i | i in db.installs :: i in db.integrations
    ensures forall l | l in db.links ::
              db.links[l].integration in db.integrations && db.integrations[db.links[l].integration].org == db.links[l].org
  {
  }

  lemma RepositoryLinksKeep(db: Db, ids: set<nat>, status: Status, from: set<Status>)
    requires LiveLinksPointAtLive(db) && from <= LIVE
    requires forall l | l in ids :: l in db.links && (db.links[l].status in from || db.links[l].status == status)
    ensures LiveLinksPointAtLive(UpdateRepositories(db, ids, status, from))
  {
    var t := UpdateRepositories(db, ids, status, from);
    forall l | l in t.links && t.links[l].status in LIVE ensures IsLive(t, t.links[l].integration) {
      assert db.links[l].status in LIVE && IsLive(db, db.links[l].integration);
    }
  }

  lemma RepositoryStatusesKeep(db: Db, ids: set<nat>, status: Status, from: set<Status>)
    requires StatusesAgree(db)
    requires forall l | l in ids :: l in db.links && (db.links[l].status in from || db.links[l].status == status)
    ensures StatusesAgree(UpdateRepositories(db, ids, status, from))
  {
  }

  lemma SameIntegrations(db: Db, t: Db)
    requires t.integrations == db.integrations && t.installs == db.installs
    ensures OneLiveIntegration(db) ==> OneLiveIntegration(t)
    ensures LiveIffInstalled(db) ==> LiveIffInstalled(t)
  {
  }

  lemma RepositoriesKeep(db: Db, ids: set<nat>, status: Status, from: set<Status>)
    requires Inv(db) && from <= LIVE
    requires forall l | l in ids :: l in db.links && (db.links[l].status in from || db.links[l].status == status)
    requires Constraints(UpdateRepositories(db, ids, status, from))
    ensures Inv(UpdateRepositories(db, ids, status, from))
  {
    hide Constraints, LiveLinksPointAtLive, StatusesAgree, OneLiveIntegration, LiveIffInstalled;
    RepositoryLinksKeep(db, ids, status, from);
    RepositoryStatusesKeep(db, ids, status, from);
    SameIntegrations(db, UpdateRepositories(db, ids, status, from));
  }

  /** A link disconnected since it was read gets its old repository's opposite. */
  lemma StaleIdBreaks(db: Db, ids: set<nat>, status: Status, from: set<Status>, l: nat)
    requires StatusesAgree(db) && from <= LIVE && l in ids && LinkGone(db, l) && !status.Disconnected?
    ensures !StatusesAgree(UpdateRepositories(db, ids, status, from))
  {
    var t := UpdateRepositories(db, ids, status, from);
    assert t.links[l].status == status && t.repos[l] == db.repos[l];
  }

  lemma InStatuses(db: Db, ids: set<nat>, status: Status, from: set<Status>)
    requires ids <= db.links.Keys && from + {status} >= LIVE
    requires status.Disconnected? || forall l | l in ids :: !LinkGone(db, l)
    ensures forall l | l in ids :: l in db.links && (db.links[l].status in from || db.links[l].status == status)
  {
    forall l | l in ids ensures db.links[l].status in from || db.links[l].status == status {
      assert db.links[l].status in LIVE ==> db.links[l].status in from + {status};
    }
  }

  /** The update by id keeps the invariants exactly when it disconnects, or when none of the
      links has been disconnected since it was read. */
  lemma RepositoriesKeepIff(db: Db, ids: set<nat>, status: Status, from: set<Status>)
    requires Inv(db) && ids <= db.links.Keys && from <= LIVE && from + {status} >= LIVE
    requires Constraints(UpdateRepositories(db, ids, status, from))
    ensures Inv(UpdateRepositories(db, ids, status, from)) <==>
              status.Disconnected? || forall l | l in ids :: !LinkGone(db, l)
  {
    hide Constraints, OneLiveIntegration, LiveIffInstalled, LiveLinksPointAtLive, StatusesAgree, UpdateRepositories;
    if status.Disconnected? || forall l | l in ids :: !LinkGone(db, l) {
      InStatuses(db, ids, status, from);
      RepositoriesKeep(db, ids, status, from);
    } else {
      var l :| l in ids && LinkGone(db, l);
      StaleIdBreaks(db, ids, status, from, l);
    }
  }

  ghost predicate LinkGone(db: Db, l: nat) { l in db.links && db.links[l].status.Disconnected? }

  /** None of the links a delivery has read is disconnected by now, or it disconnects itself. */
  ghost predicate StillFits(db: Db, hook: Webhook, ids: set<nat>)
    requires ReadsFirst(hook)
  {
    Target(hook).Disconnected? || forall l | l in ids :: !LinkGone(db, l)
  }

  lemma LateWriteKeepsIff(db: Db, hook: Webhook, ids: set<nat>)
    requires ReadsFirst(hook) && Inv(db) && ids <= db.links.Keys && Constraints(Late(db, hook, ids))
    ensures Inv(Late(db, hook, ids)) <==> StillFits(db, hook, ids)
  {
    RepositoriesKeepIff(db, ids, Target(hook), From(hook));
  }

  /** And it makes a disconnected link live exactly when it has read that link and does not
      disconnect. */
  lemma LateWriteRevivesIff(db: Db, hook: Webhook, ids: set<nat>, l: nat)
    requires ReadsFirst(hook) && LinkGone(db, l)
    ensures LinkGone(Late(db, hook, ids), l) <==> Target(hook).Disconnected? || l !in ids
  {
  }

  lemma ReadFits(db: Db, hook: Webhook)
    requires ReadsFirst(hook)
    ensures LinksRead(db, hook) <= db.links.Keys && StillFits(db, hook, LinksRead(db, hook))
  {
  }

  /** No webhook breaks an invariant when nothing commits between its read and its update,
      whatever integration it looked up. */
  lemma WebhookKeeps(db: Db, hook: Webhook)
    requires Inv(db)
    ensures Inv(Commit(db, Deliver(db, hook)))
  {
    hide Inv, Constraints;
    if Constraints(Deliver(db, hook)) {
      match hook
      case InstallationDeleted(id) => InstallationKeeps(db, id, Disconnected, LIVE);
      case InstallationSuspended(id) => InstallationKeeps(db, id, Broken, LIVE);
      case InstallationUnsuspended(id) => InstallationKeeps(db, id, Active, {Broken});
      case _ =>
        ReadFits(db, hook);
        LateWriteKeepsIff(db, hook, LinksRead(db, hook));
    }
  }

  lemma ReconnectLive(db: Db, session: nat, installationId: string, created: nat, previous: set<nat>, now: int)
    requires OneLiveIntegration(db) && Claimable(db, session, installationId, now) && created !in db.integrations
    ensures var t := ConnectLate(db, session, installationId, created, previous, now);
            && OneLiveIntegration(t)
            && forall i | IsLive(t, i) :: i == created || (IsLive(db, i) && db.integrations[i].org != db.sessions[session].org)
  {
  }

  lemma ReconnectInstalls(db: Db, session: nat, installationId: string, created: nat, previous: set<nat>, now: int)
    requires LiveIffInstalled(db) && (forall i | i in db.installs :: i in db.integrations)
    requires Claimable(db, session, installationId, now) && created !in db.integrations
    requires OfOrg(db, db.sessions[session].org, previous)
    requires Previous(db, db.sessions[session].org) <= previous
    ensures LiveIffInstalled(ConnectLate(db, session, installationId, created, previous, now))
  {
    var org := db.sessions[session].org;
    var t := ConnectLate(db, session, installationId, created, previous, now);
    forall i | i in t.integrations ensures IsLive(t, i) <==> i in t.installs {
      if i != created && db.integrations[i].org == org && i in db.installs {
        assert i in Previous(db, org);
      }
    }
  }

  lemma ReconnectIntegrations(db: Db, session: nat, installationId: string, created: nat, previous: set<nat>, now: int)
    requires Inv(db) && Claimable(db, session, installationId, now) && created !in db.integrations
    requires OfOrg(db, db.sessions[session].org, previous)
    requires Previous(db, db.sessions[session].org) <= previous
    ensures var t := ConnectLate(db, session, installationId, created, previous, now);
            OneLiveIntegration(t) && LiveIffInstalled(t)
  {
    ConstraintFacts(db);
    ReconnectLive(db, session, installationId, created, previous, now);
    ReconnectInstalls(db, session, installationId, created, previous, now);
    hide *;
  }

  lemma ReconnectLinks(db: Db, session: nat, installationId: string, created: nat, previous: set<nat>, now: int)
    requires Inv(db) && Claimable(db, session, installationId, now) && created !in db.integrations
    requires Previous(db, db.sessions[session].org) <= previous
    ensures LiveLinksPointAtLive(ConnectLate(db, session, installationId, created, previous, now))
  {
    var org := db.sessions[session].org;
    ConstraintFacts(db);
    hide Constraints, OneLiveIntegration, StatusesAgree;
    var t := ConnectLate(db, session, installationId, created, previous, now);
    forall l | l in t.links && t.links[l].status in LIVE ensures IsLive(t, t.links[l].integration) {
      var i := db.links[l].integration;
      assert IsLive(db, i) && i in db.installs && i != created;
      if db.links[l].org == org {
        assert i in Previous(db, org) && t.links[l].integration == created;
      } else {
        assert t.links[l] == db.links[l] && t.integrations[i] == db.integrations[i];
      }
    }
  }

  lemma ReconnectStatuses(db: Db, session: nat, installationId: string, created: nat, previous: set<nat>, now: int)
    requires StatusesAgree(db)
    ensures StatusesAgree(ConnectLate(db, session, installationId, created, previous, now))
  {
  }

  /** The ids are integrations of the organization. */
  ghost predicate OfOrg(db: Db, org: string, ids: set<nat>) {
    forall i | i in ids :: i in db.integrations && db.integrations[i].org == org
  }

  /** A reconnect keeps the invariants exactly when the integration it replaces is one it has
      read: one installed since then would stay installed and be disconnected. */
  lemma ReconnectKeepsIff(db: Db, session: nat, installationId: string, created: nat, previous: set<nat>, now: int)
    requires Inv(db) && Claimable(db, session, installationId, now) && created !in db.integrations
    requires OfOrg(db, db.sessions[session].org, previous)
    requires Constraints(ConnectLate(db, session, installationId, created, previous, now))
    ensures Inv(ConnectLate(db, session, installationId, created, previous, now))
            <==> Previous(db, db.sessions[session].org) <= previous
  {
    var org := db.sessions[session].org;
    if Previous(db, org) <= previous {
      ReconnectIntegrations(db, session, installationId, created, previous, now);
      ReconnectLinks(db, session, installationId, created, previous, now);
      ReconnectStatuses(db, session, installationId, created, previous, now);
    } else {
      var i :| i in Previous(db, org) && i !in previous;
      MissedIntegration(db, session, installationId, created, previous, now, i);
    }
    hide Constraints, OneLiveIntegration, LiveIffInstalled, LiveLinksPointAtLive, StatusesAgree, ConnectLate;
  }

  lemma MissedIntegration(db: Db, session: nat, installationId: string, created: nat, previous: set<nat>, now: int, i: nat)
    requires Claimable(db, session, installationId, now) && created !in db.integrations
    requires i in Previous(db, db.sessions[session].org) && i !in previous
    ensures !LiveIffInstalled(ConnectLate(db, session, installationId, created, previous, now))
  {
    var t := ConnectLate(db, session, installationId, created, previous, now);
    assert i in t.integrations && i in t.installs && t.integrations[i].status.Disconnected?;
  }

  lemma ReconnectKeeps(db: Db, session: nat, installationId: string, created: nat, now: int)
    requires Inv(db)
    ensures Inv(Commit(db, ConnectInstallation(db, session, installationId, created, now)))
  {
    if Claimable(db, session, installationId, now) && created !in db.integrations
       && Constraints(ConnectInstallation(db, session, installationId, created, now)) {
      ReconnectKeepsIff(db, session, installationId, created, Previous(db, db.sessions[session].org), now);
    }
    hide Constraints, OneLiveIntegration, LiveIffInstalled, LiveLinksPointAtLive, StatusesAgree;
  }

  lemma UnlinkKeeps(db: Db, project: string)
    requires Inv(db)
    ensures LiveIffInstalled(UnlinkProject(db, project)) && OneLiveIntegration(UnlinkProject(db, project))
    ensures LiveLinksPointAtLive(UnlinkProject(db, project)) && StatusesAgree(UnlinkProject(db, project))
  {
    hide Constraints;
  }

  lemma DetachKeeps(db: Db, project: string)
    requires Inv(db)
    ensures Inv(Commit(db, UnlinkProject(db, project)))
  {
    UnlinkKeeps(db, project);
    hide Constraints, OneLiveIntegration, LiveIffInstalled, LiveLinksPointAtLive, StatusesAgree, UnlinkProject;
  }

  /** A project link is made through an integration that was looked up before. It keeps the
      invariants exactly when that integration is still live: an installation removed or
      replaced in between leaves a live link to a disconnected integration. */
  lemma LinkKeepsIff(db: Db, link: nat, project: string, org: string, integration: nat, repoId: string)
    requires Inv(db) && link !in db.links && link !in db.repos
    requires Constraints(LinkProject(db, link, project, org, integration, repoId))
    ensures Inv(LinkProject(db, link, project, org, integration, repoId)) <==> IsLive(db, integration)
  {
    UnlinkKeeps(db, project);
    UnlinkFrame(db, project);
    var u := UnlinkProject(db, project);
    AddedLink(u, link, Link(project, org, integration, Active), Repo(org, repoId, Active));
    assert IsLive(u, integration) == IsLive(db, integration);
    hide Constraints, OneLiveIntegration, LiveIffInstalled, LiveLinksPointAtLive, StatusesAgree, UnlinkProject;
  }

  lemma AddedLink(u: Db, l: nat, link: Link, repo: Repo)
    requires OneLiveIntegration(u) && LiveIffInstalled(u) && LiveLinksPointAtLive(u) && StatusesAgree(u)
    requires l !in u.links && l !in u.repos && link.status == repo.status == Active
    ensures var t := u.(links := u.links[l := link], repos := u.repos[l := repo]);
            && OneLiveIntegration(t) && LiveIffInstalled(t) && StatusesAgree(t)
            && (LiveLinksPointAtLive(t) <==> IsLive(u, link.integration))
  {
    var t := u.(links := u.links[l := link], repos := u.repos[l := repo]);
    assert forall i :: IsLive(t, i) == IsLive(u, i);
    assert t.links[l] == link;
    assert forall m | m in u.links :: t.links[m] == u.links[m];
  }

  lemma UnlinkFrame(db: Db, project: string)
    ensures var u := UnlinkProject(db, project);
            && u.integrations == db.integrations && u.installs == db.installs && u.sessions == db.sessions
            && u.links.Keys == db.links.Keys && u.repos.Keys == db.repos.Keys
  {
  }

  /** A webhook that reads and updates in one go revives no link. */
  lemma WebhookRevivesNothing(db: Db, hook: Webhook, l: nat)
    requires LinkGone(db, l)
    ensures LinkGone(Deliver(db, hook), l)
  {
    if ReadsFirst(hook) {
      ReadFits(db, hook);
      LateWriteRevivesIff(db, hook, LinksRead(db, hook), l);
    }
  }

  const SUSPENDED := Db(map[0 := Integration("o", Broken)], map[0 := "i"], map[1 := Link("p", "o", 0, Broken)],
                        map[1 := Repo("o", "r", Broken)], map[])

  lemma SuspendedIsSound()
    ensures Inv(SUSPENDED)
  {
    var db := SUSPENDED;
    assert db.integrations.Keys == {0} && db.installs.Keys == {0} && db.links.Keys == {1} && db.repos.Keys == {1};
    assert OneLiveIntegration(db) && LiveIffInstalled(db);
    assert LiveLinksPointAtLive(db) && StatusesAgree(db);
    hide OneLiveIntegration, LiveIffInstalled, LiveLinksPointAtLive, StatusesAgree, IsLive;
  }

  const UNARCHIVED := SUSPENDED.(links := map[1 := Link("p", "o", 0, Active)], repos := map[1 := Repo("o", "r", Active)])

  lemma UnarchivedSuspended()
    ensures Deliver(SUSPENDED, RepositoryUnarchived(0, "o", "r")) == UNARCHIVED && Constraints(UNARCHIVED)
  {
    var ids := RepoLinksOf(SUSPENDED, 0, "o", {"r"}, {Broken});
    assert ids == {1};
    assert SetLinks(SUSPENDED.links, ids, Active) == map[1 := Link("p", "o", 0, Active)];
    assert SetRepos(SUSPENDED.repos, ids, Active, {Broken}) == map[1 := Repo("o", "r", Active)];
  }

  /** A repository unarchived while its installation is suspended: the link is active again,
      its integration is not. */
  lemma ActiveLinkToBrokenIntegration()
    ensures Inv(SUSPENDED) && Inv(UNARCHIVED)
    ensures Commit(SUSPENDED, Deliver(SUSPENDED, RepositoryUnarchived(0, "o", "r"))) == UNARCHIVED
    ensures UNARCHIVED.links[1].status.Active?
    ensures UNARCHIVED.integrations[UNARCHIVED.links[1].integration].status.Broken?
  {
    SuspendedIsSound();
    UnarchivedSuspended();
    WebhookKeeps(SUSPENDED, RepositoryUnarchived(0, "o", "r"));
    hide Inv, Constraints, Deliver;
  }
}

/** Runs over the GitHub tables: webhooks, install sessions, reconnects and project connections
    in any interleaving. Transactions that read without a lock and update later are two steps,
    with anything in between; the runs that break an invariant are told apart exactly. */
module GitHubRuns {
  import opened Wrappers
  import opened GitHubConnections

  /** The links a repository delivery has read, and the integrations a reconnect has read. */
  datatype Delivery = Delivery(hook: Webhook, ids: set<nat>)
  datatype Reading = Reading(session: nat, previous: set<nat>)

  datatype System = System(db: Db, deliveries: map<nat, Delivery>, reconnects: map<nat, Reading>)

  const EMPTY := Db(map[], map[], map[], map[], map[])
  const START := System(EMPTY, map[], map[])

  /** Hook and Connect are transactions in which nothing commits between read and update. */
  datatype Step =
    | Hook(hook: Webhook)
    | Read(d: nat, hook: Webhook)
    | Write(d: nat)
    | Begin(session: nat, org: string, expiresAt: int)
    | Setup(session: nat, installationId: string, now: int)
    | Connect(session: nat, installationId: string, created: nat, now: int)
    | ReadPrevious(c: nat, session: nat)
    | FinishConnect(c: nat, installationId: string, created: nat, now: int)
    | Attach(link: nat, project: string, org: string, integration: nat, repoId: string)
    | Detach(project: string)

  predicate Tracked(s: System, d: nat) { d in s.deliveries && ReadsFirst(s.deliveries[d].hook) }

  function Updated(s: System, d: nat): Db
    requires Tracked(s, d)
  {
    Late(s.db, s.deliveries[d].hook, s.deliveries[d].ids)
  }

  function Reconnected(s: System, c: nat, installationId: string, created: nat, now: int): Db
    requires c in s.reconnects
  {
    ConnectLate(s.db, s.reconnects[c].session, installationId, created, s.reconnects[c].previous, now)
  }

  function NextDb(s: System, step: Step): Db {
    match step
    case Hook(hook) => Commit(s.db, Deliver(s.db, hook))
    case Read(_, _) => s.db
    case Write(d) => if Tracked(s, d) then Commit(s.db, Updated(s, d)) else s.db
    case Begin(n, org, expiresAt) =>
      if n in s.db.sessions then s.db
      else s.db.(sessions := s.db.sessions[n := Session(org, None, false, expiresAt)])
    case Setup(n, installationId, now) => CompleteSetup(s.db, n, installationId, now)
    case Connect(n, installationId, created, now) => Commit(s.db, ConnectInstallation(s.db, n, installationId, created, now))
    case ReadPrevious(_, _) => s.db
    case FinishConnect(c, installationId, created, now) =>
      if c in s.reconnects then Commit(s.db, Reconnected(s, c, installationId, created, now)) else s.db
    case Attach(l, project, org, i, repoId) => Commit(s.db, LinkProject(s.db, l, project, org, i, repoId))
    case Detach(project) => Commit(s.db, UnlinkProject(s.db, project))
  }

  function Next(s: System, step: Step): System {
    System(
      NextDb(s, step),
      if step.Read? && step.d !in s.deliveries && ReadsFirst(step.hook)
      then s.deliveries[step.d := Delivery(step.hook, LinksRead(s.db, step.hook))]
      else if step.Write? then s.deliveries - {step.d} else s.deliveries,
      if step.ReadPrevious? && step.c !in s.reconnects && step.session in s.db.sessions
      then s.reconnects[step.c := Reading(step.session, Previous(s.db, s.db.sessions[step.session].org))]
      else if step.FinishConnect? then s.reconnects - {step.c} else s.reconnects)
  }

  function After(s: System, steps: seq<Step>): System
    decreases |steps|
  {
    if steps == [] then s else After(Next(s, steps[0]), steps[1..])
  }

  /** What was read is still there, if not as it was: nothing is ever removed. */
  ghost predicate ReadsInv(s: System) {
    && (forall d | d in s.deliveries :: ReadsFirst(s.deliveries[d].hook) && s.deliveries[d].ids <= s.db.links.Keys)
    && (forall c | c in s.reconnects ::
          s.reconnects[c].session in s.db.sessions
          && OfOrg(s.db, s.db.sessions[s.reconnects[c].session].org, s.reconnects[c].previous))
  }

  ghost predicate Grows(a: Db, b: Db) {
    && a.links.Keys <= b.links.Keys
    && (forall i | i in a.integrations :: i in b.integrations && b.integrations[i].org == a.integrations[i].org)
    && (forall n | n in a.sessions :: n in b.sessions && b.sessions[n].org == a.sessions[n].org)
  }

  lemma HookGrows(db: Db, hook: Webhook)
    ensures Grows(db, Deliver(db, hook))
  {
    match hook
    case InstallationDeleted(_) =>
    case InstallationSuspended(_) =>
    case InstallationUnsuspended(_) =>
    case _ =>
  }

  lemma ConnectGrows(db: Db, session: nat, installationId: string, created: nat, previous: set<nat>, now: int)
    ensures Grows(db, ConnectLate(db, session, installationId, created, previous, now))
  {
  }

  lemma DbGrows(s: System, step: Step)
    ensures Grows(s.db, NextDb(s, step))
  {
    hide Constraints, ConnectLate, Deliver;
    match step
    case Hook(hook) => HookGrows(s.db, hook);
    case Read(_, _) =>
    case Write(_) =>
    case Begin(_, _, _) =>
    case Setup(_, _, _) =>
    case Connect(n, installationId, created, now) =>
      if n in s.db.sessions {
        ConnectGrows(s.db, n, installationId, created, Previous(s.db, s.db.sessions[n].org), now);
      }
    case ReadPrevious(_, _) =>
    case FinishConnect(c, installationId, created, now) =>
      if c in s.reconnects {
        ConnectGrows(s.db, s.reconnects[c].session, installationId, created, s.reconnects[c].previous, now);
      }
    case Attach(_, _, _, _, _) =>
    case Detach(_) =>
  }

  lemma ReadsStep(s: System, step: Step)
    requires ReadsInv(s)
    ensures ReadsInv(Next(s, step))
  {
    DbGrows(s, step);
    var t := Next(s, step);
    hide NextDb;
    forall d | d in t.deliveries ensures ReadsFirst(t.deliveries[d].hook) && t.deliveries[d].ids <= t.db.links.Keys {
      if step.Read? && d !in s.deliveries {
        ReadFits(s.db, step.hook);
      }
    }
  }

  // ---------- soundness ----------

  /** What decides whether a transaction is in time: a repository delivery finds none of its
      links disconnected, unless it disconnects; a reconnect has read the integration it
      replaces; a project is linked through an integration that is still live. */
  ghost predicate InTime(s: System, step: Step) {
    match step
    case Write(d) => Tracked(s, d) ==> StillFits(s.db, s.deliveries[d].hook, s.deliveries[d].ids)
    case FinishConnect(c, _, _, _) =>
      c in s.reconnects && s.reconnects[c].session in s.db.sessions ==>
        Previous(s.db, s.db.sessions[s.reconnects[c].session].org) <= s.reconnects[c].previous
    case Attach(_, _, _, integration, _) => IsLive(s.db, integration)
    case _ => true
  }

  /** In time, or without effect because it does not apply or an index stops it. */
  ghost predicate OnTime(s: System, step: Step) { InTime(s, step) || NextDb(s, step) == s.db }

  lemma SessionsOnly(db: Db, sessions: map<nat, Session>)
    requires Inv(db)
    ensures Inv(db.(sessions := sessions))
  {
  }

  lemma WriteKeepsIff(s: System, d: nat)
    requires Inv(s.db) && ReadsInv(s)
    ensures Inv(NextDb(s, Write(d))) <==> OnTime(s, Write(d))
  {
    hide Inv, Constraints;
    if Tracked(s, d) && Constraints(Updated(s, d)) {
      LateWriteKeepsIff(s.db, s.deliveries[d].hook, s.deliveries[d].ids);
    }
  }

  lemma FinishKeepsIff(s: System, c: nat, installationId: string, created: nat, now: int)
    requires Inv(s.db) && ReadsInv(s)
    ensures Inv(NextDb(s, FinishConnect(c, installationId, created, now)))
            <==> OnTime(s, FinishConnect(c, installationId, created, now))
  {
    hide Inv, Constraints;
    if c in s.reconnects && Constraints(Reconnected(s, c, installationId, created, now))
       && Claimable(s.db, s.reconnects[c].session, installationId, now) && created !in s.db.integrations {
      ReconnectKeepsIff(s.db, s.reconnects[c].session, installationId, created, s.reconnects[c].previous, now);
    }
  }

  lemma AttachKeepsIff(s: System, step: Step)
    requires Inv(s.db) && step.Attach?
    ensures Inv(NextDb(s, step)) <==> OnTime(s, step)
  {
    hide Inv, Constraints, UnlinkProject;
    var t := LinkProject(s.db, step.link, step.project, step.org, step.integration, step.repoId);
    if step.link !in s.db.links && step.link !in s.db.repos && Constraints(t) {
      LinkKeepsIff(s.db, step.link, step.project, step.org, step.integration, step.repoId);
    }
  }

  lemma SoundStepIff(s: System, step: Step)
    requires Inv(s.db) && ReadsInv(s)
    ensures Inv(NextDb(s, step)) <==> OnTime(s, step)
  {
    hide Inv, Constraints;
    match step
    case Hook(hook) => WebhookKeeps(s.db, hook);
    case Read(_, _) =>
    case Write(d) => WriteKeepsIff(s, d);
    case Begin(_, _, _) => SessionsOnly(s.db, NextDb(s, step).sessions);
    case Setup(_, _, _) => SessionsOnly(s.db, NextDb(s, step).sessions);
    case Connect(n, installationId, created, now) => ReconnectKeeps(s.db, n, installationId, created, now);
    case ReadPrevious(_, _) =>
    case FinishConnect(c, installationId, created, now) => FinishKeepsIff(s, c, installationId, created, now);
    case Attach(_, _, _, _, _) => AttachKeepsIff(s, step);
    case Detach(project) => DetachKeeps(s.db, project);
  }

  ghost predicate AlwaysSound(s: System, steps: seq<Step>)
    decreases |steps|
  {
    Inv(s.db) && (steps == [] || AlwaysSound(Next(s, steps[0]), steps[1..]))
  }

  ghost predicate AllOnTime(s: System, steps: seq<Step>)
    decreases |steps|
  {
    steps == [] || (OnTime(s, steps[0]) && AllOnTime(Next(s, steps[0]), steps[1..]))
  }

  /** At most one live integration per organization, live exactly when installed, live links
      only to live integrations, link and repository in step: this holds throughout a run if
      and only if each of its transactions is in time. */
  lemma {:induction false} ConnectionsStaySoundIff(s: System, steps: seq<Step>)
    requires Inv(s.db) && ReadsInv(s)
    ensures AlwaysSound(s, steps) <==> AllOnTime(s, steps)
    decreases |steps|
  {
    hide Inv, OnTime, NextDb;
    if steps != [] {
      SoundStepIff(s, steps[0]);
      ReadsStep(s, steps[0]);
      if Inv(NextDb(s, steps[0])) {
        ConnectionsStaySoundIff(Next(s, steps[0]), steps[1..]);
      }
    }
  }

  /** What the keys and indexes of the schema promise about rows. */
  ghost predicate KeysHold(db: Db) {
    && (forall l, m | l in db.links && m in db.links && l != m && db.links[l].status == db.links[m].status == Active ::
          db.links[l].project != db.links[m].project)
    && (forall l, m | l in db.repos && m in db.repos && l != m && db.repos[l].status == db.repos[m].status == Active ::
          !(db.repos[l].org == db.repos[m].org && db.repos[l].repoId == db.repos[m].repoId))
    && (forall i, j | i in db.integrations && j in db.integrations && i != j
                      && db.integrations[i].status == db.integrations[j].status == Active ::
          db.integrations[i].org != db.integrations[j].org)
    && (forall i, j | i in db.installs && j in db.installs && i != j :: db.installs[i] != db.installs[j])
    && db.installs.Keys <= db.integrations.Keys && db.repos.Keys <= db.links.Keys
    && (forall l | l in db.repos :: db.repos[l].org == db.links[l].org)
    && (forall l | l in db.links :: db.links[l].integration in db.integrations
                                    && db.integrations[db.links[l].integration].org == db.links[l].org)
  }

  lemma ConstraintsAreKeys(db: Db)
    ensures Constraints(db) <==> KeysHold(db)
  {
  }

  /** A project never has two active links, a repository never two active connections, an
      organization never two active integrations: in every run, however its transactions
      interleave. */
  lemma {:induction false} KeysAlwaysHold(s: System, steps: seq<Step>)
    requires Constraints(s.db)
    ensures KeysHold(After(s, steps).db)
    decreases |steps|
  {
    if steps == [] {
      ConstraintsAreKeys(s.db);
    } else {
      ConstraintsKept(s, steps[0]);
      hide Constraints, KeysHold, NextDb;
      KeysAlwaysHold(Next(s, steps[0]), steps[1..]);
    }
  }

  lemma ConstraintsKept(s: System, step: Step)
    requires Constraints(s.db)
    ensures Constraints(NextDb(s, step))
  {
    match step
    case Hook(_) => hide Constraints;
    case Read(_, _) =>
    case Write(_) => hide Constraints;
    case Begin(_, _, _) =>
    case Setup(_, _, _) =>
    case Connect(_, _, _, _) => hide Constraints;
    case ReadPrevious(_, _) =>
    case FinishConnect(_, _, _, _) => hide Constraints;
    case Attach(_, _, _, _, _) => hide Constraints;
    case Detach(_) => hide Constraints;
  }

  lemma StartIsSound()
    ensures Inv(START.db) && ReadsInv(START) && ActiveOnActive(START.db)
  {
  }

  // ---------- disconnected links ----------

  /** A repository delivery that has read the link, and unarchives, archives or transfers it
      after it was disconnected. */
  predicate Revives(s: System, step: Step, l: nat) {
    && step.Write? && Tracked(s, step.d) && l in s.deliveries[step.d].ids
    && !Target(s.deliveries[step.d].hook).Disconnected? && Constraints(Updated(s, step.d))
  }

  lemma GoneStepIff(s: System, step: Step, l: nat)
    requires LinkGone(s.db, l)
    ensures LinkGone(NextDb(s, step), l) <==> !Revives(s, step, l)
  {
    hide Constraints;
    match step
    case Hook(hook) => WebhookRevivesNothing(s.db, hook, l);
    case Write(d) =>
      if Tracked(s, d) {
        LateWriteRevivesIff(s.db, s.deliveries[d].hook, s.deliveries[d].ids, l);
      }
    case Read(_, _) =>
    case Begin(_, _, _) =>
    case Setup(_, _, _) =>
    case Connect(_, _, _, _) =>
    case ReadPrevious(_, _) =>
    case FinishConnect(_, _, _, _) =>
    case Attach(_, _, _, _, _) =>
    case Detach(_) =>
  }

  ghost predicate StaysGone(s: System, steps: seq<Step>, l: nat)
    decreases |steps|
  {
    LinkGone(s.db, l) && (steps == [] || StaysGone(Next(s, steps[0]), steps[1..], l))
  }

  ghost predicate NeverRevives(s: System, steps: seq<Step>, l: nat)
    decreases |steps|
  {
    steps == [] || (!Revives(s, steps[0], l) && NeverRevives(Next(s, steps[0]), steps[1..], l))
  }

  /** A disconnected link stays disconnected throughout a run if and only if no late repository
      delivery that read it before writes it. */
  lemma {:induction false} DisconnectedLinkStaysIff(s: System, steps: seq<Step>, l: nat)
    requires LinkGone(s.db, l)
    ensures StaysGone(s, steps, l) <==> NeverRevives(s, steps, l)
    decreases |steps|
  {
    hide Revives, NextDb;
    if steps != [] {
      GoneStepIff(s, steps[0], l);
      if LinkGone(NextDb(s, steps[0]), l) {
        DisconnectedLinkStaysIff(Next(s, steps[0]), steps[1..], l);
      }
    }
  }

  // ---------- active links ----------

  ghost predicate OnActive(db: Db, l: nat)
    requires l in db.links
  {
    db.links[l].integration in db.integrations && db.integrations[db.links[l].integration].status.Active?
  }

  ghost predicate ActiveOnActive(db: Db) {
    forall l | l in db.links && db.links[l].status.Active? :: OnActive(db, l)
  }

  /** Links set by their repository: only an activation can put one on a broken integration. */
  lemma UpdateActivatesIff(db: Db, ids: set<nat>, status: Status, from: set<Status>)
    requires ActiveOnActive(db) && ids <= db.links.Keys
    ensures ActiveOnActive(UpdateRepositories(db, ids, status, from)) <==>
              !status.Active? || forall l | l in ids :: OnActive(db, l)
  {
    var t := UpdateRepositories(db, ids, status, from);
    if status.Active? && ActiveOnActive(t) {
      forall l | l in ids ensures OnActive(db, l) {
        assert t.links[l].status.Active? && OnActive(t, l);
      }
    } else if !status.Active? || forall l | l in ids :: OnActive(db, l) {
      forall l | l in t.links && t.links[l].status.Active? ensures OnActive(t, l) {
        assert OnActive(db, l);
      }
    }
  }

  /** Removing, suspending and unsuspending an installation moves its links along with it. */
  lemma InstallationKeepsActive(db: Db, hook: Webhook)
    requires Inv(db) && ActiveOnActive(db) && !ReadsFirst(hook)
    ensures ActiveOnActive(Deliver(db, hook))
  {
    var t := Deliver(db, hook);
    hide Constraints, StatusesAgree, LiveIffInstalled, OneLiveIntegration;
    forall l | l in t.links && t.links[l].status.Active? ensures OnActive(t, l) {
      assert db.links[l].status in LIVE && IsLive(db, db.links[l].integration);
      assert db.links[l].status.Active? ==> OnActive(db, l);
    }
  }

  lemma LinkOrgs(db: Db, l: nat)
    requires Constraints(db) && l in db.links
    ensures db.links[l].integration in db.integrations
            && db.integrations[db.links[l].integration].org == db.links[l].org
  {
  }

  /** Links that move to the new integration are on an active one. */
  lemma ReconnectKeepsActive(db: Db, session: nat, installationId: string, created: nat, previous: set<nat>, now: int)
    requires Inv(db) && ActiveOnActive(db)
    requires session in db.sessions && Previous(db, db.sessions[session].org) <= previous
    ensures ActiveOnActive(ConnectLate(db, session, installationId, created, previous, now))
  {
    hide Constraints, StatusesAgree, OneLiveIntegration, LiveLinksPointAtLive;
    var org := db.sessions[session].org;
    var t := ConnectLate(db, session, installationId, created, previous, now);
    if Claimable(db, session, installationId, now) && created !in db.integrations {
      forall l | l in t.links && t.links[l].status.Active? ensures OnActive(t, l) {
        var i := db.links[l].integration;
        LinkOrgs(db, l);
        assert OnActive(db, l) && i in db.installs && i != created;
        if db.links[l].org == org {
          assert i in Previous(db, org) && t.links[l].integration == created;
        } else {
          assert t.links[l] == db.links[l] && t.integrations[i] == db.integrations[i];
        }
      }
    }
  }

  lemma UnlinkKeepsActive(db: Db, project: string)
    requires ActiveOnActive(db)
    ensures ActiveOnActive(UnlinkProject(db, project))
  {
    var t := UnlinkProject(db, project);
    forall l | l in t.links && t.links[l].status.Active? ensures OnActive(t, l) {
      assert OnActive(db, l);
    }
  }

  lemma LinkKeepsActiveIff(db: Db, link: nat, project: string, org: string, integration: nat, repoId: string)
    requires ActiveOnActive(db) && link !in db.links && link !in db.repos
    ensures ActiveOnActive(LinkProject(db, link, project, org, integration, repoId)) <==>
              integration in db.integrations && db.integrations[integration].status.Active?
  {
    var u := UnlinkProject(db, project);
    UnlinkKeepsActive(db, project);
    UnlinkFrame(db, project);
    hide UnlinkProject;
    var t := LinkProject(db, link, project, org, integration, repoId);
    assert t.links[link] == Link(project, org, integration, GitHubConnections.Active);
    if integration in db.integrations && db.integrations[integration].status.Active? {
      forall l | l in t.links && t.links[l].status.Active? ensures OnActive(t, l) {
        if l != link {
          assert t.links[l] == u.links[l] && OnActive(u, l);
        }
      }
    } else {
      assert !OnActive(t, link);
    }
  }

  /** What a transaction activates lies on active integrations. */
  ghost predicate ActivatesOnActive(s: System, step: Step) {
    match step
    case Hook(hook) =>
      ReadsFirst(hook) && Target(hook).Active? ==>
        forall l | l in LinksRead(s.db, hook) :: l in s.db.links && OnActive(s.db, l)
    case Write(d) =>
      Tracked(s, d) && Target(s.deliveries[d].hook).Active? ==>
        forall l | l in s.deliveries[d].ids :: l in s.db.links && OnActive(s.db, l)
    case Attach(_, _, _, integration, _) =>
      integration in s.db.integrations && s.db.integrations[integration].status.Active?
    case _ => true
  }

  /** Active links stay on active integrations in a step exactly when what it activates does,
      or it has no effect. */
  lemma ActiveStepIff(s: System, step: Step)
    requires Inv(s.db) && ReadsInv(s) && ActiveOnActive(s.db) && OnTime(s, step)
    ensures ActiveOnActive(NextDb(s, step)) <==> ActivatesOnActive(s, step) || NextDb(s, step) == s.db
  {
    hide Inv, Constraints, ActiveOnActive, UpdateRepositories;
    match step
    case Hook(hook) =>
      if ReadsFirst(hook) {
        ReadFits(s.db, hook);
        UpdateActivatesIff(s.db, LinksRead(s.db, hook), Target(hook), From(hook));
      } else {
        InstallationKeepsActive(s.db, hook);
      }
    case Write(d) =>
      if Tracked(s, d) {
        UpdateActivatesIff(s.db, s.deliveries[d].ids, Target(s.deliveries[d].hook), From(s.deliveries[d].hook));
      }
    case Connect(n, installationId, created, now) =>
      if n in s.db.sessions {
        ReconnectKeepsActive(s.db, n, installationId, created, Previous(s.db, s.db.sessions[n].org), now);
      }
    case FinishConnect(c, installationId, created, now) =>
      if c in s.reconnects && NextDb(s, step) != s.db {
        ReconnectKeepsActive(s.db, s.reconnects[c].session, installationId, created, s.reconnects[c].previous, now);
      }
    case Attach(l, project, org, i, repoId) =>
      if l !in s.db.links && l !in s.db.repos {
        LinkKeepsActiveIff(s.db, l, project, org, i, repoId);
      }
    case Detach(project) => UnlinkKeepsActive(s.db, project);
    case Begin(_, _, _) => SameLinks(s.db, NextDb(s, step));
    case Setup(_, _, _) => SameLinks(s.db, NextDb(s, step));
    case Read(_, _) =>
    case ReadPrevious(_, _) =>
  }

  lemma SameLinks(a: Db, b: Db)
    requires ActiveOnActive(a) && b.links == a.links && b.integrations == a.integrations
    ensures ActiveOnActive(b)
  {
    forall l | l in b.links && b.links[l].status.Active? ensures OnActive(b, l) {
      assert OnActive(a, l);
    }
  }

  ghost predicate AlwaysActiveOnActive(s: System, steps: seq<Step>)
    decreases |steps|
  {
    ActiveOnActive(s.db) && (steps == [] || AlwaysActiveOnActive(Next(s, steps[0]), steps[1..]))
  }

  ghost predicate AllActivateOnActive(s: System, steps: seq<Step>)
    decreases |steps|
  {
    steps == [] || ((ActivatesOnActive(s, steps[0]) || NextDb(s, steps[0]) == s.db)
                    && AllActivateOnActive(Next(s, steps[0]), steps[1..]))
  }

  /** Throughout a run whose transactions are in time, every active link is on an active
      integration if and only if nothing is activated on another one. */
  lemma {:induction false} ActiveLinksIff(s: System, steps: seq<Step>)
    requires Inv(s.db) && ReadsInv(s) && ActiveOnActive(s.db) && AllOnTime(s, steps)
    ensures AlwaysActiveOnActive(s, steps) <==> AllActivateOnActive(s, steps)
    decreases |steps|
  {
    hide Inv, OnTime, NextDb, ActiveOnActive, ActivatesOnActive;
    if steps != [] {
      ActiveStepIff(s, steps[0]);
      SoundStepIff(s, steps[0]);
      ReadsStep(s, steps[0]);
      if ActiveOnActive(NextDb(s, steps[0])) {
        ActiveLinksIff(Next(s, steps[0]), steps[1..]);
      }
    }
  }

  // ---------- sessions ----------

  ghost predicate Installed(db: Db, n: nat, installationId: string) {
    n in db.sessions && db.sessions[n].installationId == Some(installationId)
  }

  lemma WebhooksLeaveSessions(db: Db, hook: Webhook)
    ensures Deliver(db, hook).sessions == db.sessions
  {
  }

  lemma InstalledStep(s: System, step: Step, n: nat, installationId: string)
    requires Installed(s.db, n, installationId)
    ensures Installed(NextDb(s, step), n, installationId)
  {
    hide Constraints;
    match step
    case Hook(hook) => WebhooksLeaveSessions(s.db, hook);
    case Read(_, _) =>
    case Write(_) =>
    case Begin(_, _, _) =>
    case Setup(_, _, _) =>
    case Connect(_, _, _, _) =>
    case ReadPrevious(_, _) =>
    case FinishConnect(_, _, _, _) =>
    case Attach(_, _, _, _, _) =>
    case Detach(_) =>
  }

  /** A session's installation id is written once. */
  lemma {:induction false} SessionIsWriteOnce(s: System, steps: seq<Step>, n: nat, installationId: string)
    requires Installed(s.db, n, installationId)
    ensures Installed(After(s, steps).db, n, installationId)
    decreases |steps|
  {
    hide NextDb;
    if steps != [] {
      InstalledStep(s, steps[0], n, installationId);
      SessionIsWriteOnce(Next(s, steps[0]), steps[1..], n, installationId);
    }
  }
}

/** Runs from the empty tables that break an invariant of GitHub connections, because a
    transaction comes too late. GitHubRuns says exactly when one does. */
module GitHubRaces {
  import opened Wrappers
  import opened GitHubConnections
  import opened GitHubRuns

  const LIVELY := GitHubConnections.Active

  ghost predicate Reachable(s: System) { exists steps :: After(START, steps) == s }

  lemma {:induction false} AfterSnoc(s: System, steps: seq<Step>, step: Step)
    ensures After(s, steps + [step]) == Next(After(s, steps), step)
    decreases |steps|
  {
    hide Next;
    if steps == [] {
      assert steps + [step] == [step] && [step][1..] == [];
      assert After(s, [step]) == After(Next(s, step), []);
    } else {
      assert (steps + [step])[1..] == steps[1..] + [step];
      AfterSnoc(Next(s, steps[0]), steps[1..], step);
    }
  }

  lemma Reach(s: System, step: Step)
    requires Reachable(s)
    ensures Reachable(Next(s, step))
  {
    hide Next;
    var steps :| After(START, steps) == s;
    AfterSnoc(START, steps, step);
  }

  // ---------- one installation ----------

  /** One integration, installed unless disconnected, and at most one link with its repository. */
  function One(status: Status, links: map<nat, Link>, repos: map<nat, Repo>): Db {
    Db(map[0 := Integration("o", status)], if status.Disconnected? then map[] else map[0 := "i"], links, repos,
       map[0 := Session("o", Some("i"), true, 10)])
  }

  function Links(status: Status): map<nat, Link> { map[1 := Link("p", "o", 0, status)] }

  function Repos(status: Status): map<nat, Repo> { map[1 := Repo("o", "r", status)] }

  function Linked(integration: Status, link: Status, repo: Status): Db { One(integration, Links(link), Repos(repo)) }

  function Unlinked(integration: Status): Db { One(integration, map[], map[]) }

  function Quiet(db: Db): System { System(db, map[], map[]) }

  lemma LinkedConstraints(integration: Status, link: Status, repo: Status)
    ensures Constraints(Linked(integration, link, repo)) && Constraints(Unlinked(integration))
  {
    AtMostOne(Linked(integration, link, repo));
    AtMostOne(Unlinked(integration));
    hide Constraints;
  }

  /** With at most one row of each kind, only the foreign keys are left to hold. */
  lemma AtMostOne(db: Db)
    requires db.integrations.Keys == {0} && db.installs.Keys <= {0} && db.integrations[0].org == "o"
    requires db.links.Keys <= {1} && db.repos.Keys <= db.links.Keys
    requires 1 in db.links ==> db.links[1].integration == 0 && db.links[1].org == "o"
    requires 1 in db.repos ==> db.repos[1].org == "o"
    ensures Constraints(db)
  {
    assert forall i | i in db.integrations.Keys :: i == 0;
    assert forall l | l in db.links.Keys :: l == 1;
    assert forall i | i in db.installs.Keys :: i == 0;
    assert forall l | l in db.repos.Keys :: l == 1;
  }

  const BEGUN := EMPTY.(sessions := map[0 := Session("o", None, false, 10)])

  lemma Begun()
    ensures Next(START, Begin(0, "o", 10)) == Quiet(BEGUN)
  {
  }

  lemma ConnectedDb()
    ensures ConnectInstallation(BEGUN, 0, "i", 0, 5) == Unlinked(LIVELY)
  {
    assert Claimable(BEGUN, 0, "i", 5);
    assert DisconnectLive(BEGUN.integrations, "o") == map[];
    assert Repoint(BEGUN.links, "o", Previous(BEGUN, "o"), 0) == map[];
    assert BEGUN.installs - Previous(BEGUN, "o") == map[];
    assert BEGUN.sessions[0 := Session("o", Some("i"), true, 10)] == Unlinked(LIVELY).sessions;
    hide DisconnectLive, Repoint, Previous, Claimable;
  }

  lemma Connected()
    ensures Next(Quiet(BEGUN), Connect(0, "i", 0, 5)) == Quiet(Unlinked(LIVELY))
  {
    LinkedConstraints(LIVELY, LIVELY, LIVELY);
    ConnectedDb();
    hide Constraints, ConnectInstallation, Unlinked, BEGUN;
  }

  lemma ConnectedOnce()
    ensures Reachable(Quiet(Unlinked(LIVELY)))
  {
    hide Next;
    assert Reachable(START) by {
      assert After(START, []) == START;
    }
    Reach(START, Begin(0, "o", 10));
    Begun();
    Reach(Next(START, Begin(0, "o", 10)), Connect(0, "i", 0, 5));
    Connected();
  }

  lemma Attached(integration: Status)
    ensures NextDb(Quiet(Unlinked(integration)), Attach(1, "p", "o", 0, "r")) == Linked(integration, LIVELY, LIVELY)
  {
    LinkedConstraints(integration, LIVELY, LIVELY);
    hide Constraints;
    assert ActiveLinks(Unlinked(integration), "p") == {};
    assert LinkProject(Unlinked(integration), 1, "p", "o", 0, "r") == Linked(integration, LIVELY, LIVELY);
  }

  // ---------- a project linked too late ----------

  lemma RemovedUnlinked()
    ensures Next(Quiet(Unlinked(LIVELY)), Hook(InstallationDeleted(0))) == Quiet(Unlinked(Disconnected))
  {
    LinkedConstraints(Disconnected, LIVELY, LIVELY);
    hide Constraints;
    assert LinksOf(Unlinked(LIVELY), 0, LIVE) == {};
    assert Deliver(Unlinked(LIVELY), InstallationDeleted(0)) == Unlinked(Disconnected);
  }

  lemma UnlinkedSound()
    ensures Inv(Unlinked(Disconnected)) && !IsLive(Unlinked(Disconnected), 0)
  {
    LinkedConstraints(Disconnected, LIVELY, LIVELY);
    hide Constraints;
  }

  /** A project linked while its installation goes away: the link is active, its integration
      disconnected. */
  lemma LinkedWhileRemoved()
    ensures exists s: System :: Reachable(s) && Inv(s.db)
              && NextDb(s, Attach(1, "p", "o", 0, "r")) == Linked(Disconnected, LIVELY, LIVELY)
    ensures !LiveLinksPointAtLive(Linked(Disconnected, LIVELY, LIVELY)) && !Inv(Linked(Disconnected, LIVELY, LIVELY))
  {
    hide Next, Inv;
    ConnectedOnce();
    Reach(Quiet(Unlinked(LIVELY)), Hook(InstallationDeleted(0)));
    RemovedUnlinked();
    UnlinkedSound();
    Attached(Disconnected);
    BrokenLink(LIVELY);
    var s := Quiet(Unlinked(Disconnected));
    assert Reachable(s);
  }

  lemma BrokenLink(repo: Status)
    ensures !LiveLinksPointAtLive(Linked(Disconnected, LIVELY, repo)) && !Inv(Linked(Disconnected, LIVELY, repo))
  {
    hide Constraints;
    var t := Linked(Disconnected, LIVELY, repo);
    assert t.links[1].status.Active? && !IsLive(t, t.links[1].integration);
  }

  // ---------- a delivery written too late ----------

  const UNARCHIVE := RepositoryUnarchived(0, "o", "r")

  lemma Archived()
    ensures Next(Quiet(Linked(LIVELY, LIVELY, LIVELY)), Hook(RepositoryArchived(0, "o", "r")))
            == Quiet(Linked(LIVELY, Broken, Broken))
  {
    LinkedConstraints(LIVELY, Broken, Broken);
    hide Constraints;
    var db := Linked(LIVELY, LIVELY, LIVELY);
    assert LinksRead(db, RepositoryArchived(0, "o", "r")) == {1};
    assert Deliver(db, RepositoryArchived(0, "o", "r")) == Linked(LIVELY, Broken, Broken);
  }

  function ReadOnce(db: Db): System { System(db, map[0 := Delivery(UNARCHIVE, {1})], map[]) }

  lemma ReadBroken()
    ensures Next(Quiet(Linked(LIVELY, Broken, Broken)), Read(0, UNARCHIVE)) == ReadOnce(Linked(LIVELY, Broken, Broken))
  {
    assert LinksRead(Linked(LIVELY, Broken, Broken), UNARCHIVE) == {1};
  }

  lemma RemovedLinked()
    ensures Next(ReadOnce(Linked(LIVELY, Broken, Broken)), Hook(InstallationDeleted(0)))
            == ReadOnce(Linked(Disconnected, Disconnected, Disconnected))
  {
    LinkedConstraints(Disconnected, Disconnected, Disconnected);
    hide Constraints;
    var db := Linked(LIVELY, Broken, Broken);
    assert LinksOf(db, 0, LIVE) == {1};
    assert Deliver(db, InstallationDeleted(0)) == Linked(Disconnected, Disconnected, Disconnected);
  }

  /** The delivery has read its link, and the installation has been removed since. */
  lemma OvertakenIsReachable()
    ensures Reachable(ReadOnce(Linked(Disconnected, Disconnected, Disconnected)))
  {
    ConnectedOnce();
    var attach, archive := Attach(1, "p", "o", 0, "r"), Hook(RepositoryArchived(0, "o", "r"));
    Reach(Quiet(Unlinked(LIVELY)), attach);
    Attached(LIVELY);
    assert Next(Quiet(Unlinked(LIVELY)), attach) == Quiet(Linked(LIVELY, LIVELY, LIVELY)) by {
      hide NextDb;
    }
    hide Next, NextDb, One;
    Reach(Quiet(Linked(LIVELY, LIVELY, LIVELY)), archive);
    Archived();
    Reach(Quiet(Linked(LIVELY, Broken, Broken)), Read(0, UNARCHIVE));
    ReadBroken();
    Reach(ReadOnce(Linked(LIVELY, Broken, Broken)), Hook(InstallationDeleted(0)));
    RemovedLinked();
  }

  lemma WrittenLate()
    ensures Updated(ReadOnce(Linked(Disconnected, Disconnected, Disconnected)), 0)
            == Linked(Disconnected, LIVELY, Disconnected)
  {
    assert SetLinks(Links(Disconnected), {1}, LIVELY) == Links(LIVELY);
    assert SetRepos(Repos(Disconnected), {1}, LIVELY, {Broken}) == Repos(Disconnected);
  }

  /** A repository is unarchived while its installation is removed: the delivery read the link
      before, and writes it after. The link is active again, its repository and its integration
      stay disconnected. */
  lemma LateUnarchiveRevives()
    ensures exists s: System :: Reachable(s) && LinkGone(s.db, 1) && Revives(s, Write(0), 1)
              && NextDb(s, Write(0)) == Linked(Disconnected, LIVELY, Disconnected)
    ensures !Inv(Linked(Disconnected, LIVELY, Disconnected)) && !StatusesAgree(Linked(Disconnected, LIVELY, Disconnected))
  {
    OvertakenIsReachable();
    WrittenLate();
    LinkedConstraints(Disconnected, LIVELY, Disconnected);
    BrokenLink(Disconnected);
    hide Constraints, Inv;
    var s := ReadOnce(Linked(Disconnected, Disconnected, Disconnected));
    assert Reachable(s) && LinkGone(s.db, 1) && Revives(s, Write(0), 1);
  }

  // ---------- a reconnect that has read too early ----------

  /** The organization of two sessions, before and after the second one has connected it. */
  function Sessions(installationId: Option<string>): map<nat, Session> {
    map[0 := Session("o", None, false, 10), 1 := Session("o", installationId, installationId.Some?, 10)]
  }

  const UNCONNECTED := EMPTY.(sessions := Sessions(None))
  const CONNECTED := Db(map[0 := Integration("o", GitHubConnections.Active)], map[0 := "i"], map[], map[], Sessions(Some("i")))
  const RECONNECTED := Db(map[0 := Integration("o", Disconnected), 1 := Integration("o", GitHubConnections.Active)],
                          map[0 := "i", 1 := "j"], map[], map[],
                          map[0 := Session("o", Some("j"), true, 10), 1 := Session("o", Some("i"), true, 10)])

  function ReadNothing(db: Db): System { System(db, map[], map[0 := Reading(0, {})]) }

  lemma BegunTwice()
    ensures Reachable(Quiet(UNCONNECTED))
  {
    assert Reachable(START) by {
      assert After(START, []) == START;
    }
    Reach(START, Begin(0, "o", 10));
    Begun();
    var one := Next(START, Begin(0, "o", 10));
    Reach(one, Begin(1, "o", 10));
    assert one.db.sessions[1 := Session("o", None, false, 10)] == Sessions(None);
  }

  lemma ReadEmpty()
    ensures Next(Quiet(UNCONNECTED), ReadPrevious(0, 0)) == ReadNothing(UNCONNECTED)
  {
    assert Previous(UNCONNECTED, "o") == {};
  }

  lemma ConnectedConstraints()
    ensures Constraints(CONNECTED)
  {
  }

  lemma SecondConnects()
    ensures Next(ReadNothing(UNCONNECTED), Connect(1, "i", 0, 5)) == ReadNothing(CONNECTED)
  {
    hide Constraints;
    ConnectedConstraints();
    assert Previous(UNCONNECTED, "o") == {};
    assert UNCONNECTED.sessions[1 := Session("o", Some("i"), true, 10)] == Sessions(Some("i"));
    assert ConnectInstallation(UNCONNECTED, 1, "i", 0, 5) == CONNECTED;
  }

  lemma FirstFinishes()
    ensures Reconnected(ReadNothing(CONNECTED), 0, "j", 1, 5) == RECONNECTED
  {
    assert DisconnectLive(CONNECTED.integrations, "o") == map[0 := Integration("o", Disconnected)];
  }

  lemma ReconnectedConstraints()
    ensures Constraints(RECONNECTED) && !LiveIffInstalled(RECONNECTED)
  {
    assert 0 in RECONNECTED.integrations && !IsLive(RECONNECTED, 0) && 0 in RECONNECTED.installs;
  }

  /** Two install sessions of one organization overlap: the one that read first disconnects the
      integration the other has created, and leaves it installed. */
  lemma OverlappingReconnects()
    ensures exists s: System :: Reachable(s) && NextDb(s, FinishConnect(0, "j", 1, 5)) == RECONNECTED
    ensures !LiveIffInstalled(RECONNECTED) && !Inv(RECONNECTED)
  {
    BegunTwice();
    ReconnectedConstraints();
    FirstFinishes();
    assert NextDb(ReadNothing(CONNECTED), FinishConnect(0, "j", 1, 5)) == RECONNECTED by {
      hide Constraints, ConnectLate;
    }
    hide Next, NextDb, Constraints;
    Reach(Quiet(UNCONNECTED), ReadPrevious(0, 0));
    ReadEmpty();
    Reach(ReadNothing(UNCONNECTED), Connect(1, "i", 0, 5));
    SecondConnects();
    var s := ReadNothing(CONNECTED);
    assert Reachable(s);
  }
}

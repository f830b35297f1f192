/** The stored Jira connection of one user and the atomic updates made to it
    (Credentials.ts). Sealing is an injective function of the token and a fresh nonce. */
module CredentialRow {
  import opened Wrappers

  type Time = int

  const LEASE: Time := 30_000
  const DEADLINE: Time := 35_000
  const EXPIRY_SKEW: Time := 300_000

  const REQUIRED_SCOPES: set<string> :=
    {"read:jira-work", "read:jira-user", "read:issue-details:jira", "read:jql:jira", "read:project:jira",
     "read:board-scope:jira-software", "read:sprint:jira-software", "offline_access"}

  datatype Sealed = Sealed(token: string, nonce: nat)
  datatype Lease = Lease(id: nat, expiresAt: Time)
  datatype Standing = Active | ReconnectRequired(reason: Option<string>)

  datatype Integration = Integration(
    access: Sealed, refresh: Sealed, expiresAt: Time, scopes: set<string>, standing: Standing, lease: Option<Lease>)

  datatype Grant = Grant(access: Sealed, refresh: Sealed, expiresAt: Time, scopes: set<string>)

  datatype Outcome =
    | NotConnected
    | MustReconnect(reason: string)
    | Contention
    | Failed(error: string)
    | Token(access: Sealed)

  /** Opening a sealed access token; it fails when the sealing key no longer fits. */
  function Opened(access: Sealed, opens: bool): Outcome {
    if opens then Token(access) else Failed("invalid_response")
  }

  predicate HasRequiredScopes(scopes: set<string>) { REQUIRED_SCOPES <= scopes }

  predicate HasLease(row: Option<Integration>, lease: nat) {
    row.Some? && row.value.lease.Some? && row.value.lease.value.id == lease
  }

  predicate Claimable(row: Option<Integration>, now: Time) {
    && row.Some? && row.value.standing.Active?
    && (row.value.lease.None? || row.value.lease.value.expiresAt <= now)
  }

  function Claimed(row: Integration, lease: nat, now: Time): Integration {
    row.(lease := Some(Lease(lease, now + LEASE)))
  }

  function Cleared(row: Option<Integration>, lease: nat): Option<Integration> {
    if HasLease(row, lease) then Some(row.value.(lease := None)) else row
  }

  function Rejected(row: Option<Integration>, lease: nat, reason: string): Option<Integration> {
    if HasLease(row, lease) then Some(row.value.(standing := ReconnectRequired(Some(reason)), lease := None)) else row
  }

  function Replaced(row: Option<Integration>, lease: nat, grant: Grant): Option<Integration> {
    if HasLease(row, lease)
    then Some(Integration(grant.access, grant.refresh, grant.expiresAt, grant.scopes, row.value.standing, None))
    else row
  }

  function Connected(grant: Grant, standing: Standing): Option<Integration> {
    Some(Integration(grant.access, grant.refresh, grant.expiresAt, grant.scopes, standing, None))
  }

  function Marked(row: Option<Integration>, reason: string): Option<Integration> {
    if row.None? then None else Some(row.value.(standing := ReconnectRequired(Some(reason)), lease := None))
  }

  /** What a read of the row decides. `baseline` is the access token a forced call saw first. */
  datatype Decision = Stop(outcome: Outcome) | Serve | Claim

  function Decide(row: Option<Integration>, baseline: Option<Sealed>, now: Time): Decision {
    if row.None? then Stop(NotConnected)
    else match row.value.standing
         case ReconnectRequired(reason) => Stop(MustReconnect(if reason.Some? then reason.value else "invalid_grant"))
         case Active =>
           if baseline.None? then
             if row.value.expiresAt > now + EXPIRY_SKEW then Serve else Claim
           else if row.value.access != baseline.value && row.value.lease.None? then Serve
           else Claim
  }

  /** What opening the stored refresh token and asking the token endpoint leads to. */
  datatype Answer =
    | Unusable(error: string)      // the stored token cannot be opened, or the endpoint fails
    | Refused(reason: string)      // the endpoint wants the user to reconnect
    | Granted(access: string, refresh: string, expiresAt: Time, scopes: set<string>, sealable: bool)

  datatype Task = Refresh | Persist(grant: Grant) | Clear(error: string) | Reject(reason: string)

  function TaskFor(answer: Answer, nonce: nat): Task {
    match answer
    case Unusable(error) => Clear(error)
    case Refused(reason) => Reject(reason)
    case Granted(access, refresh, expiresAt, scopes, sealable) =>
      if !HasRequiredScopes(scopes) then Reject("missing_scopes")
      else if !sealable then Clear("invalid_response")
      else Persist(Grant(Sealed(access, nonce), Sealed(refresh, nonce + 1), expiresAt, scopes))
  }

  /** The row after a worker holding `lease` writes the result of its refresh. */
  function Written(row: Option<Integration>, lease: nat, task: Task): Option<Integration> {
    match task
    case Refresh => row
    case Persist(grant) => Replaced(row, lease, grant)
    case Clear(_) => Cleared(row, lease)
    case Reject(reason) => Rejected(row, lease, reason)
  }

  function OutcomeOf(task: Task): Outcome {
    match task
    case Refresh => Contention
    case Persist(grant) => Token(grant.access)
    case Clear(error) => Failed(error)
    case Reject(reason) => MustReconnect(reason)
  }

  /** When a call is answered from the row: an unforced one while the token is not about to
      expire, a forced one when the token is not the one it saw first and nobody refreshes it. */
  lemma ServedIff(row: Option<Integration>, baseline: Option<Sealed>, now: Time)
    ensures Decide(row, baseline, now) == Serve <==>
              && row.Some? && row.value.standing == Active
              && if baseline.None? then row.value.expiresAt - now > EXPIRY_SKEW
                 else row.value.lease == None && Some(row.value.access) != baseline
    ensures Decide(row, baseline, now).Stop? <==> row == None || row.value.standing != Active
  {
  }

  /** An unforced call is answered from the row, without asking the token endpoint. */
  ghost predicate ServesUnforced(row: Option<Integration>, now: Time) { Decide(row, None, now) == Serve }

  /** The row stores the grant, column by column. */
  ghost predicate Holds(row: Integration, grant: Grant) {
    row.access == grant.access && row.refresh == grant.refresh && row.expiresAt == grant.expiresAt && row.scopes == grant.scopes
  }

  /** The same tokens, expiry and scopes. */
  ghost predicate KeepsTokens(row: Integration, after: Integration) {
    && after.access == row.access && after.refresh == row.refresh
    && after.expiresAt == row.expiresAt && after.scopes == row.scopes
  }

  /** How a call that refreshes ends, by what the token endpoint answered, and the row it leaves
      behind without a lease: only a grant with every required scope replaces the tokens. */
  ghost predicate Refreshed(row: Integration, answer: Answer, nonce: nat, after: Integration, outcome: Outcome) {
    && after.lease.None?
    && (answer.Granted? && REQUIRED_SCOPES <= answer.scopes && answer.sealable ==>
          && outcome == Token(Sealed(answer.access, nonce))
          && after.access == Sealed(answer.access, nonce) && after.refresh == Sealed(answer.refresh, nonce + 1)
          && after.expiresAt == answer.expiresAt && after.scopes == answer.scopes && after.standing.Active?)
    && (answer.Granted? && REQUIRED_SCOPES <= answer.scopes && !answer.sealable ==>
          outcome == Failed("invalid_response") && KeepsTokens(row, after) && after.standing.Active?)
    && (answer.Granted? && !(REQUIRED_SCOPES <= answer.scopes) ==>
          && outcome == MustReconnect("missing_scopes") && KeepsTokens(row, after)
          && after.standing == ReconnectRequired(Some("missing_scopes")))
    && (answer.Refused? ==>
          && outcome == MustReconnect(answer.reason) && KeepsTokens(row, after)
          && after.standing == ReconnectRequired(Some(answer.reason)))
    && (answer.Unusable? ==> outcome == Failed(answer.error) && KeepsTokens(row, after) && after.standing.Active?)
  }

  /** The same connection: only its lease and its standing may differ. */
  ghost predicate SameGrant(a: Option<Integration>, b: Option<Integration>) {
    a.Some? == b.Some? && (a.Some? ==> b.value == a.value.(lease := b.value.lease, standing := b.value.standing))
  }

  /** Every call ends here until the user connects again, and no lease is given out. */
  ghost predicate AsksToReconnect(row: Option<Integration>, reason: string) {
    forall baseline, now :: Decide(row, baseline, now) == Stop(MustReconnect(reason)) && !Claimable(row, now)
  }

  ghost predicate Unleased(row: Option<Integration>) { forall lease :: !HasLease(row, lease) }

  class JiraCredentials {
    var row: Option<Integration>
    var nonce: nat

    constructor ()
      ensures row == None && nonce == 0
    {
      row := None;
      nonce := 0;
    }

    method TryClaim(lease: nat, now: Time) returns (claimed: bool)
      modifies this`row
      ensures claimed <==> Claimable(old(row), now)
      ensures row == if claimed then Some(Claimed(old(row).value, lease, now)) else old(row)
    {
      if row.Some? && row.value.standing.Active?
         && (row.value.lease.None? || row.value.lease.value.expiresAt <= now) {
        row := Some(row.value.(lease := Some(Lease(lease, now + LEASE))));
        return true;
      }
      return false;
    }

    /** The lease is given up at once, and only this one: a lease taken over meanwhile stands. */
    method ClearLease(lease: nat)
      modifies this`row
      ensures !HasLease(row, lease) && SameGrant(old(row), row)
      ensures forall other :: other != lease ==> HasLease(row, other) == HasLease(old(row), other)
      ensures HasLease(old(row), lease) && old(row).value.standing.Active? ==> forall now :: Claimable(row, now)
      ensures row == Cleared(old(row), lease)
    {
      if HasLease(row, lease) {
        row := Some(row.value.(lease := None));
      }
    }

    /** Only the holder of the lease can send the user to reconnect. */
    method RequireReconnect(lease: nat, reason: string)
      modifies this`row
      ensures !HasLease(row, lease) && SameGrant(old(row), row)
      ensures if HasLease(old(row), lease) then AsksToReconnect(row, reason) && Unleased(row) else row == old(row)
      ensures row == Rejected(old(row), lease, reason)
    {
      if HasLease(row, lease) {
        row := Some(row.value.(standing := ReconnectRequired(Some(reason)), lease := None));
      }
    }

    /** Only the holder of the lease stores its grant, in full; the lease ends and the standing
        stays. A stored grant serves unforced calls until it is about to expire. */
    method StoreRefresh(lease: nat, grant: Grant) returns (persisted: bool)
      modifies this`row
      ensures persisted <==> old(row).Some? && old(row).value.lease.Some? && old(row).value.lease.value.id == lease
      ensures !persisted ==> row == old(row)
      ensures persisted ==> row.Some? && Holds(row.value, grant)
      ensures persisted ==> row.value.standing == old(row).value.standing && row.value.lease.None?
      ensures persisted && row.value.standing.Active? ==>
                forall now :: ServesUnforced(row, now) <==> grant.expiresAt > now + EXPIRY_SKEW
      ensures row == Replaced(old(row), lease, grant)
    {
      if !HasLease(row, lease) {
        return false;
      }
      row := Some(row.value.(access := grant.access, refresh := grant.refresh, expiresAt := grant.expiresAt,
                             scopes := grant.scopes, lease := None));
      return true;
    }

    /** A reconnect ends every lease, so no refresh begun before it can still store anything;
        an unforced call is served from it until it is about to expire. */
    method PersistGrant(grant: Grant, standing: Standing)
      modifies this`row
      ensures Unleased(row) && forall lease, late :: Replaced(row, lease, late) == row
      ensures standing.Active? ==> forall now ::
                Decide(row, None, now) == if grant.expiresAt > now + EXPIRY_SKEW then Serve else Claim
      ensures standing.ReconnectRequired? ==>
                AsksToReconnect(row, if standing.reason.Some? then standing.reason.value else "invalid_grant")
      ensures row == Connected(grant, standing)
    {
      row := Some(Integration(grant.access, grant.refresh, grant.expiresAt, grant.scopes, standing, None));
    }

    /** Whoever holds the lease loses it, so the mark cannot be undone by a refresh. */
    method MarkReconnectRequired(reason: string)
      modifies this`row
      ensures SameGrant(old(row), row) && Unleased(row)
      ensures row.Some? ==> AsksToReconnect(row, reason)
      ensures forall lease, late :: Replaced(row, lease, late) == row
      ensures row == Marked(old(row), reason)
    {
      if row.Some? {
        row := Some(row.value.(standing := ReconnectRequired(Some(reason)), lease := None));
      }
    }

    /** Every later call is told so, and no refresh begun before brings the tokens back. */
    method Disconnect()
      modifies this`row
      ensures forall baseline, now :: Decide(row, baseline, now) == Stop(NotConnected) && !Claimable(row, now)
      ensures forall lease, task :: Written(row, lease, task) == row
      ensures row == None
    {
      row := None;
    }

    /** A call that nobody else interferes with. `clock(i)` is the time of the i-th look at the
        row: a sleep of 100 ms separates two looks. Whatever lease a stopped worker left behind
        runs out before the deadline, so the call never ends in contention: it answers from the
        row or refreshes exactly once. */
    method AccessTokenFor(force: bool, clock: nat -> Time, opens: bool, answer: Answer) returns (outcome: Outcome)
      requires forall i: nat :: clock(i + 1) >= clock(i) + 100
      requires row.Some? && row.value.lease.Some? ==> row.value.lease.value.expiresAt <= clock(0) + LEASE
      modifies this
      ensures outcome != Contention
      ensures old(row).None? ==> outcome == NotConnected && row == None
      ensures old(row).Some? && old(row).value.standing.ReconnectRequired? ==>
                var reason := old(row).value.standing.reason;
                outcome == MustReconnect(if reason.Some? then reason.value else "invalid_grant") && row == old(row)
      ensures old(row).Some? && old(row).value.standing.Active? ==>
                if !force && old(row).value.expiresAt > clock(0) + EXPIRY_SKEW
                then row == old(row) && outcome == if opens then Token(row.value.access) else Failed("invalid_response")
                else row.Some? && Refreshed(old(row).value, answer, old(nonce), row.value, outcome)
    {
      var deadline := clock(0) + DEADLINE;
      var baseline: Option<Sealed> := None;
      var look: nat := 0;
      while true
        invariant row == old(row) && nonce == old(nonce)
        invariant baseline.Some? ==> force && row.Some? && baseline.value == row.value.access
        invariant clock(look) >= clock(0) + 100 * look
        invariant look > 0 ==> Decide(row, if force && row.Some? then Some(row.value.access) else None, clock(0)) == Claim
        decreases deadline - clock(look)
      {
        if row.None? {
          return NotConnected;
        }
        if force && baseline.None? {
          baseline := Some(row.value.access);
        }
        var now := clock(look);
        match Decide(row, baseline, now) {
          case Stop(stopped) => return stopped;
          case Serve => return Opened(row.value.access, opens);
          case Claim =>
        }
        var lease := nonce + 2;
        var claimed := TryClaim(lease, now);
        if !claimed {
          if now >= deadline {
            return Contention;
          }
          look := look + 1;
          continue;
        }
        var task := TaskFor(answer, nonce);
        match task {
          case Clear(error) => ClearLease(lease);
          case Reject(reason) => RequireReconnect(lease, reason);
          case Persist(grant) => var _ := StoreRefresh(lease, grant);
        }
        nonce := nonce + 3;
        return OutcomeOf(task);
      }
    }
  }
}

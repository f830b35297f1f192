/** The sync request of one Everhour link (packages/integration-everhour, Events.ts and
    Integrations.ts): events are consumed into one request time, syncs claim the link, and a
    completed sync clears the request it saw. */
module EverhourSync {
  import opened Wrappers

  type Time = int

  const SYNC_LEASE: Time := 600_000

  datatype SyncRow = SyncRow(requestedAt: Option<Time>, claimedUntil: Option<Time>, retryAt: Option<Time>)

  predicate Claimable(row: SyncRow, now: Time) {
    row.claimedUntil.None? || row.claimedUntil.value < now
  }

  /** What a completed sync that saw `requestedAt` clears. */
  function Cleared(row: SyncRow, requestedAt: Option<Time>): SyncRow {
    if requestedAt.Some? && row.requestedAt.Some? && row.requestedAt.value <= requestedAt.value
    then row.(requestedAt := None) else row
  }

  class EverhourLink {
    var row: SyncRow

    constructor ()
      ensures row == SyncRow(None, None, None)
    {
      row := SyncRow(None, None, None);
    }

    method ClaimSync(now: Time) returns (claimed: bool, requestedAt: Option<Time>)
      modifies this
      ensures claimed <==> old(row).claimedUntil.None? || old(row).claimedUntil.value < now
      ensures claimed <==> Claimable(old(row), now)
      ensures row == if claimed then old(row).(claimedUntil := Some(now + SYNC_LEASE)) else old(row)
      ensures claimed ==> requestedAt == old(row).requestedAt
    {
      requestedAt := None;
      claimed := row.claimedUntil.None? || row.claimedUntil.value < now;
      if claimed {
        row := row.(claimedUntil := Some(now + SYNC_LEASE));
        requestedAt := row.requestedAt;
      }
    }

    /** Nobody else can claim until the lease has passed, also when the claim had already been
        lost; what was requested stays. */
    method RenewClaim(now: Time)
      modifies this
      ensures forall at :: Claimable(row, at) <==> at > now + SYNC_LEASE
      ensures row == old(row).(claimedUntil := row.claimedUntil)
    {
      row := row.(claimedUntil := Some(now + SYNC_LEASE));
    }

    /** The request goes exactly if it is no later than the one the sync saw; a later one
        stands. Either way the link can be claimed at once and no retry is due. */
    method CompleteSync(requestedAt: Option<Time>)
      modifies this
      ensures row.requestedAt.None? <==>
                old(row).requestedAt.None? || (requestedAt.Some? && old(row).requestedAt.value <= requestedAt.value)
      ensures row.requestedAt.Some? ==> row.requestedAt == old(row).requestedAt
      ensures row.retryAt.None? && forall at :: Claimable(row, at)
      ensures row == SyncRow(Cleared(old(row), requestedAt).requestedAt, None, None)
    {
      if requestedAt.Some? {
        if row.requestedAt.Some? && row.requestedAt.value <= requestedAt.value {
          row := row.(requestedAt := None);
        }
      }
      row := row.(claimedUntil := None, retryAt := None);
    }

    /** Giving up loses no request: whatever was requested, then or meanwhile, still stands and
        can be claimed at once, and a delay never moves the request itself. */
    method DeferSync(retryAfter: Option<Time>, now: Time)
      modifies this
      ensures forall at :: Claimable(row, at)
      ensures row.requestedAt == old(row).requestedAt
      ensures row.retryAt.Some? || (retryAfter.None? && old(row).retryAt.None?)
      ensures row == SyncRow(old(row).requestedAt, None, if retryAfter.Some? then Some(now + retryAfter.value) else old(row).retryAt)
    {
      row := row.(claimedUntil := None);
      if retryAfter.Some? {
        row := row.(retryAt := Some(now + retryAfter.value));
      }
    }
  }

  // ---------- runs ----------

  /** `consumed` is the time and the tick at which an event was last turned into a request. */
  datatype Event = Pending | Consumed(at: Time, tick: nat)

  datatype Pc = Running | Clearing | Succeeded | GaveUp

  /** A claimed sync, with the request time it saw and the tick of its claim. */
  datatype Sync = Sync(requestedAt: Option<Time>, tick: nat, pc: Pc)

  /** A request time as it was written, for consumed events or for a stale link. */
  datatype Request = Request(at: Time, tick: nat, forEvents: bool)

  /** `requests` lists every request time ever written. */
  datatype System = System(row: SyncRow, events: map<nat, Event>, syncs: map<nat, Sync>, requests: seq<Request>, tick: nat)

  const START := System(SyncRow(None, None, None), map[], map[], [], 0)

  datatype Step =
    | Happen(event: nat)
    | Enqueue(picked: set<nat>, now: Time)
    | RequestStale(now: Time)
    | Claim(sync: nat, now: Time)
    | Renew(sync: nat, now: Time)
    | Clear(sync: nat)
    | Release(sync: nat)
    | Fail(sync: nat, retryAfter: Option<Time>, now: Time)

  function Asked(s: System, now: Time, forEvents: bool): System {
    s.(row := s.row.(requestedAt := Some(now)), requests := s.requests + [Request(now, s.tick, forEvents)])
  }

  function Moved(s: System, sync: nat, pc: Pc, row: SyncRow): System
    requires sync in s.syncs
  {
    s.(row := row, syncs := s.syncs[sync := s.syncs[sync].(pc := pc)])
  }

  /** `picked` are the events of this link that one enqueue read as pending, so another enqueue
      may have consumed them since. A step that does not apply only lets a tick pass. */
  function Next(s: System, step: Step): System {
    var t :=
      match step
      case Happen(e) => if e in s.events then s else s.(events := s.events[e := Pending])
      case Enqueue(picked, now) =>
        if picked == {} || !(picked <= s.events.Keys) then s
        else
          Asked(s, now, true).(events := map e | e in s.events :: if e in picked then Consumed(now, s.tick) else s.events[e])
      case RequestStale(now) => if s.row.requestedAt.None? then Asked(s, now, false) else s
      case Claim(y, now) =>
        if y in s.syncs || !Claimable(s.row, now) then s
        else s.(row := s.row.(claimedUntil := Some(now + SYNC_LEASE)),
                syncs := s.syncs[y := Sync(s.row.requestedAt, s.tick, Running)])
      case Renew(y, now) =>
        if y in s.syncs && s.syncs[y].pc.Running? then s.(row := s.row.(claimedUntil := Some(now + SYNC_LEASE))) else s
      case Clear(y) =>
        if y in s.syncs && s.syncs[y].pc.Running? then Moved(s, y, Clearing, Cleared(s.row, s.syncs[y].requestedAt)) else s
      case Release(y) =>
        if y in s.syncs && s.syncs[y].pc.Clearing?
        then Moved(s, y, Succeeded, s.row.(claimedUntil := None, retryAt := None)) else s
      case Fail(y, retryAfter, now) =>
        if y in s.syncs && s.syncs[y].pc.Running?
        then Moved(s, y, GaveUp, s.row.(claimedUntil := None,
                                        retryAt := if retryAfter.Some? then Some(now + retryAfter.value) else s.row.retryAt))
        else s;
    t.(tick := s.tick + 1)
  }

  function After(s: System, steps: seq<Step>): System
    decreases |steps|
  {
    if steps == [] then s else After(Next(s, steps[0]), steps[1..])
  }

  /** What a step does to the row, field by field: what the methods above do, under the step's
      own condition. */
  ghost predicate RowMoves(s: System, step: Step, row: SyncRow) {
    match step
    case Happen(_) => row == s.row
    case Enqueue(picked, now) =>
      row == SyncRow(if picked != {} && picked <= s.events.Keys then Some(now) else s.row.requestedAt, s.row.claimedUntil, s.row.retryAt)
    case RequestStale(now) =>
      row == SyncRow(if s.row.requestedAt == None then Some(now) else s.row.requestedAt, s.row.claimedUntil, s.row.retryAt)
    case Claim(y, now) =>
      row == SyncRow(s.row.requestedAt,
                     if y !in s.syncs && (s.row.claimedUntil == None || s.row.claimedUntil.value < now)
                     then Some(now + SYNC_LEASE) else s.row.claimedUntil, s.row.retryAt)
    case Renew(y, now) =>
      row == SyncRow(s.row.requestedAt,
                     if y in s.syncs && s.syncs[y].pc == Running then Some(now + SYNC_LEASE) else s.row.claimedUntil, s.row.retryAt)
    case Clear(y) =>
      && row.claimedUntil == s.row.claimedUntil && row.retryAt == s.row.retryAt
      && (row.requestedAt == s.row.requestedAt || row.requestedAt == None)
      && (y in s.syncs && s.syncs[y].pc == Running && s.row.requestedAt.Some? ==>
            (row.requestedAt == None <==>
               s.syncs[y].requestedAt.Some? && s.row.requestedAt.value <= s.syncs[y].requestedAt.value))
    case Release(y) =>
      row == if y in s.syncs && s.syncs[y].pc == Clearing then SyncRow(s.row.requestedAt, None, None) else s.row
    case Fail(y, retryAfter, now) =>
      row == if y in s.syncs && s.syncs[y].pc == Running
             then SyncRow(s.row.requestedAt, None, if retryAfter == None then s.row.retryAt else Some(now + retryAfter.value))
             else s.row
  }

  lemma StepMovesRow(s: System, step: Step)
    ensures RowMoves(s, step, Next(s, step).row)
  {
  }

  /** A request is written at a later time than every request before it. */
  ghost predicate Later(s: System, step: Step) {
    (step.Enqueue? || step.RequestStale?) && s.requests != [] ==> step.now > s.requests[|s.requests| - 1].at
  }

  ghost predicate StrictlyLater(s: System, steps: seq<Step>)
    decreases |steps|
  {
    steps == [] || (Later(s, steps[0]) && StrictlyLater(Next(s, steps[0]), steps[1..]))
  }

  /** The event still has a request at or after its own, or a sync claimed after it was
      consumed has completed. */
  ghost predicate Served(s: System, e: Event) {
    e.Consumed? ==>
      || (s.row.requestedAt.Some? && s.row.requestedAt.value >= e.at)
      || ServedBySync(s.syncs, e.tick)
  }

  ghost predicate ServedBySync(syncs: map<nat, Sync>, tick: nat) {
    exists y :: y in syncs && (syncs[y].pc.Clearing? || syncs[y].pc.Succeeded?) && syncs[y].tick > tick
  }

  ghost predicate RequestsInv(s: System) {
    && (forall i | 0 <= i < |s.requests| :: s.requests[i].tick < s.tick)
    && (forall i, j | 0 <= i < j < |s.requests| ::
          s.requests[i].at < s.requests[j].at && s.requests[i].tick < s.requests[j].tick)
    && (s.row.requestedAt.Some? ==> s.requests != [] && s.row.requestedAt.value == s.requests[|s.requests| - 1].at)
  }

  ghost predicate SeenBefore(requests: seq<Request>, at: Time, tick: nat) {
    exists i | 0 <= i < |requests| :: requests[i].at == at && requests[i].tick < tick
  }

  ghost predicate SyncsInv(s: System) {
    forall y | y in s.syncs && s.syncs[y].requestedAt.Some? ::
      SeenBefore(s.requests, s.syncs[y].requestedAt.value, s.syncs[y].tick)
  }

  ghost predicate EventsInv(s: System) {
    forall e | e in s.events && s.events[e].Consumed? :: Request(s.events[e].at, s.events[e].tick, true) in s.requests
  }

  ghost predicate AllServed(s: System) { forall e | e in s.events :: Served(s, s.events[e]) }

  ghost predicate SyncInv(s: System) { RequestsInv(s) && SyncsInv(s) && EventsInv(s) && AllServed(s) }

  lemma SeenBeforeGrows(requests: seq<Request>, more: seq<Request>, at: Time, tick: nat)
    requires SeenBefore(requests, at, tick)
    ensures SeenBefore(requests + more, at, tick)
  {
    var i :| 0 <= i < |requests| && requests[i].at == at && requests[i].tick < tick;
    assert (requests + more)[i] == requests[i];
  }

  lemma AskedKeeps(s: System, now: Time, forEvents: bool)
    requires SyncInv(s) && (s.requests != [] ==> now > s.requests[|s.requests| - 1].at)
    ensures SyncInv(Asked(s, now, forEvents).(tick := s.tick + 1))
  {
    var t := Asked(s, now, forEvents).(tick := s.tick + 1);
    forall y | y in t.syncs && t.syncs[y].requestedAt.Some?
      ensures SeenBefore(t.requests, t.syncs[y].requestedAt.value, t.syncs[y].tick)
    {
      SeenBeforeGrows(s.requests, [Request(now, s.tick, forEvents)], s.syncs[y].requestedAt.value, s.syncs[y].tick);
    }
    forall e | e in t.events ensures Served(t, t.events[e]) {
      assert Served(s, s.events[e]);
      if s.events[e].Consumed? {
        var i :| 0 <= i < |s.requests| && s.requests[i] == Request(s.events[e].at, s.events[e].tick, true);
      }
    }
  }

  lemma EnqueueKeeps(s: System, picked: set<nat>, now: Time)
    requires SyncInv(s) && (s.requests != [] ==> now > s.requests[|s.requests| - 1].at)
    ensures SyncInv(Next(s, Enqueue(picked, now)))
  {
    var t := Next(s, Enqueue(picked, now));
    AskedKeeps(s, now, true);
    if picked != {} && picked <= s.events.Keys {
      var asked := Asked(s, now, true).(tick := s.tick + 1);
      assert t.requests[|t.requests| - 1] == Request(now, s.tick, true);
      forall e | e in t.events ensures Served(t, t.events[e]) {
        assert Served(asked, asked.events[e]);
      }
    }
  }

  /** Clearing takes away only what the clearing sync has seen: a request written after its
      claim is later than the one it saw. */
  lemma ClearKeeps(s: System, y: nat)
    requires SyncInv(s)
    ensures SyncInv(Next(s, Clear(y)))
  {
    var t := Next(s, Clear(y));
    if y in s.syncs && s.syncs[y].pc.Running? {
      assert t.syncs[y].pc.Clearing?;
      forall e | e in t.events ensures Served(t, t.events[e]) {
        assert Served(s, s.events[e]);
        if s.events[e].Consumed? {
          ClearServes(s, y, s.events[e]);
        }
      }
    }
  }

  lemma ClearServes(s: System, y: nat, e: Event)
    requires SyncInv(s) && y in s.syncs && s.syncs[y].pc.Running?
    requires e.Consumed? && Served(s, e) && Request(e.at, e.tick, true) in s.requests
    ensures Served(Next(s, Clear(y)), e)
  {
    var t := Next(s, Clear(y));
    if ServedBySync(s.syncs, e.tick) {
      var z :| z in s.syncs && (s.syncs[z].pc.Clearing? || s.syncs[z].pc.Succeeded?) && s.syncs[z].tick > e.tick;
      assert z in t.syncs && t.syncs[z] == s.syncs[z];
    } else if t.row.requestedAt != s.row.requestedAt {
      var seen := s.syncs[y].requestedAt.value;
      var i :| 0 <= i < |s.requests| && s.requests[i].at == seen && s.requests[i].tick < s.syncs[y].tick;
      var j :| 0 <= j < |s.requests| && s.requests[j] == Request(e.at, e.tick, true);
      assert i == |s.requests| - 1;
      assert e.tick < t.syncs[y].tick && t.syncs[y].pc.Clearing?;
    }
  }

  lemma SyncMovesKeep(s: System, step: Step)
    requires SyncInv(s) && (step.Claim? || step.Renew? || step.Release? || step.Fail?)
    ensures SyncInv(Next(s, step))
  {
    var t := Next(s, step);
    forall e | e in t.events ensures Served(t, t.events[e]) {
      assert Served(s, s.events[e]);
      if s.events[e].Consumed? && ServedBySync(s.syncs, s.events[e].tick) {
        var z :| z in s.syncs && (s.syncs[z].pc.Clearing? || s.syncs[z].pc.Succeeded?) && s.syncs[z].tick > s.events[e].tick;
        assert z in t.syncs && t.syncs[z].tick == s.syncs[z].tick;
      }
    }
  }

  lemma SyncStep(s: System, step: Step)
    requires SyncInv(s) && Later(s, step)
    ensures SyncInv(Next(s, step))
  {
    match step
    case Happen(_) =>
    case Enqueue(picked, now) => EnqueueKeeps(s, picked, now);
    case RequestStale(now) => AskedKeeps(s, now, false);
    case Clear(y) => ClearKeeps(s, y);
    case Claim(_, _) => SyncMovesKeep(s, step);
    case Renew(_, _) => SyncMovesKeep(s, step);
    case Release(_) => SyncMovesKeep(s, step);
    case Fail(_, _, _) => SyncMovesKeep(s, step);
  }

  /** No request is lost while request times strictly increase, however leases expire and
      syncs overlap. */
  lemma {:induction false} NoRequestIsLost(s: System, steps: seq<Step>)
    requires SyncInv(s) && StrictlyLater(s, steps)
    ensures AllServed(After(s, steps))
    decreases |steps|
  {
    if steps != [] {
      SyncStep(s, steps[0]);
      NoRequestIsLost(Next(s, steps[0]), steps[1..]);
    }
  }

  lemma StartIsServed()
    ensures SyncInv(START) && LossInv(START) && NoneLost(START)
  {
  }

  // ---------- whatever the clock does ----------

  /** Some sync that is or will be claimed still answers for the event. */
  ghost predicate InSight(s: System, e: Event) {
    e.Consumed? ==> s.row.requestedAt.Some? || ServedBySync(s.syncs, e.tick)
  }

  ghost predicate NoneLost(s: System) { forall e | e in s.events :: InSight(s, s.events[e]) }

  /** A completing sync takes a request away only if it was written before its claim, or for
      no event. */
  predicate ClearsItsOwn(s: System, step: Step) {
    step.Clear? && step.sync in s.syncs && s.syncs[step.sync].pc.Running?
    && Cleared(s.row, s.syncs[step.sync].requestedAt) != s.row && s.requests != [] ==>
      var last := s.requests[|s.requests| - 1];
      last.tick < s.syncs[step.sync].tick || !last.forEvents
  }

  ghost predicate TicksInv(s: System) {
    && (forall i | 0 <= i < |s.requests| :: s.requests[i].tick < s.tick)
    && (forall i, j | 0 <= i < j < |s.requests| :: s.requests[i].tick < s.requests[j].tick)
    && EventsInv(s)
  }

  /** While the last request stands, no sync claimed after it has cleared anything, and each of
      them has seen it. */
  ghost predicate StandingInv(s: System) {
    s.row.requestedAt.Some? ==>
      && s.requests != [] && s.row.requestedAt.value == s.requests[|s.requests| - 1].at
      && (s.requests[|s.requests| - 1].forEvents ==>
            exists e :: e in s.events && s.events[e] == Consumed(s.requests[|s.requests| - 1].at, s.requests[|s.requests| - 1].tick))
      && (forall y | y in s.syncs && s.syncs[y].tick > s.requests[|s.requests| - 1].tick ::
            s.syncs[y].requestedAt == s.row.requestedAt && (s.syncs[y].pc.Running? || s.syncs[y].pc.GaveUp?))
  }

  /** A stale link is asked for only when no request stands, so every event has had its sync. */
  ghost predicate StaleInv(s: System) {
    s.requests != [] && !s.requests[|s.requests| - 1].forEvents ==>
      forall e | e in s.events && s.events[e].Consumed? :: ServedBySync(s.syncs, s.events[e].tick)
  }

  ghost predicate LossInv(s: System) {
    TicksInv(s) && StandingInv(s) && StaleInv(s) && forall y | y in s.syncs :: s.syncs[y].tick < s.tick
  }

  /** A sync that has completed stays completed. */
  lemma ServedStays(s: System, step: Step, tick: nat)
    requires ServedBySync(s.syncs, tick)
    ensures ServedBySync(Next(s, step).syncs, tick)
  {
    var z :| z in s.syncs && (s.syncs[z].pc.Clearing? || s.syncs[z].pc.Succeeded?) && s.syncs[z].tick > tick;
    assert z in Next(s, step).syncs && Next(s, step).syncs[z].tick == s.syncs[z].tick;
  }

  lemma RequestStaleStep(s: System, now: Time)
    requires LossInv(s) && NoneLost(s)
    ensures LossInv(Next(s, RequestStale(now))) && NoneLost(Next(s, RequestStale(now)))
  {
    var t := Next(s, RequestStale(now));
    forall e | e in t.events && t.events[e].Consumed? && s.row.requestedAt.None?
      ensures ServedBySync(t.syncs, t.events[e].tick)
    {
      assert InSight(s, s.events[e]);
    }
    if s.row.requestedAt.Some? {
      forall e | e in t.events && t.events[e].Consumed? && ServedBySync(s.syncs, t.events[e].tick)
        ensures ServedBySync(t.syncs, t.events[e].tick)
      {
      }
    }
  }

  lemma EnqueueStep(s: System, picked: set<nat>, now: Time)
    requires LossInv(s) && NoneLost(s)
    ensures LossInv(Next(s, Enqueue(picked, now))) && NoneLost(Next(s, Enqueue(picked, now)))
  {
    var t := Next(s, Enqueue(picked, now));
    if picked != {} && picked <= s.events.Keys {
      var first :| first in picked;
      assert t.events[first] == Consumed(now, s.tick);
      assert t.requests[|t.requests| - 1] == Request(now, s.tick, true);
      forall e | e in t.events && t.events[e].Consumed? ensures Request(t.events[e].at, t.events[e].tick, true) in t.requests {
        if e !in picked {
          assert s.events[e] == t.events[e];
        }
      }
    }
  }

  lemma StandingStays(s: System, step: Step)
    requires LossInv(s) && !step.Enqueue? && !step.RequestStale? && !step.Clear?
    ensures StandingInv(Next(s, step))
  {
    var t := Next(s, step);
    if t.row.requestedAt.Some? && s.requests[|s.requests| - 1].forEvents {
      var e :| e in s.events && s.events[e] == Consumed(s.requests[|s.requests| - 1].at, s.requests[|s.requests| - 1].tick);
      assert e in t.events && t.events[e] == s.events[e];
    }
    hide ServedBySync, TicksInv;
    match step
    case Claim(_, _) =>
    case Happen(_) =>
    case Renew(_, _) =>
    case Release(_) =>
    case Fail(_, _, _) =>
  }

  lemma OtherStep(s: System, step: Step)
    requires LossInv(s) && NoneLost(s) && !step.Enqueue? && !step.RequestStale? && !step.Clear?
    ensures LossInv(Next(s, step)) && NoneLost(Next(s, step))
  {
    var t := Next(s, step);
    StandingStays(s, step);
    assert TicksInv(t) && forall y | y in t.syncs :: t.syncs[y].tick < t.tick;
    hide StandingInv, TicksInv, RowMoves;
    forall e | e in t.events && t.events[e].Consumed? && ServedBySync(s.syncs, t.events[e].tick)
      ensures ServedBySync(t.syncs, t.events[e].tick)
    {
      ServedStays(s, step, t.events[e].tick);
    }
    hide ServedBySync;
    EventsStay(s, step);
    hide Next;
    forall e | e in t.events ensures InSight(t, t.events[e]) {
      if e in s.events {
        assert InSight(s, s.events[e]);
      }
    }
  }

  lemma EventsStay(s: System, step: Step)
    requires !step.Enqueue? && !step.RequestStale? && !step.Clear?
    ensures Next(s, step).row.requestedAt == s.row.requestedAt && Next(s, step).requests == s.requests
    ensures forall e | e in Next(s, step).events ::
              if e in s.events then Next(s, step).events[e] == s.events[e] else Next(s, step).events[e].Pending?
    ensures s.events.Keys <= Next(s, step).events.Keys
  {
  }

  /** An event whose request is taken away by a sync claimed before it has no sync left. */
  lemma TakenRequestIsLost(s: System, y: nat)
    requires LossInv(s) && !ClearsItsOwn(s, Clear(y))
    ensures !NoneLost(Next(s, Clear(y)))
  {
    var t := Next(s, Clear(y));
    var last := s.requests[|s.requests| - 1];
    var e :| e in s.events && s.events[e] == Consumed(last.at, last.tick);
    forall z | z in t.syncs && (t.syncs[z].pc.Clearing? || t.syncs[z].pc.Succeeded?) ensures t.syncs[z].tick <= last.tick {
      assert z != y ==> t.syncs[z] == s.syncs[z];
    }
    assert !InSight(t, t.events[e]);
  }

  lemma OwnRequestIsServed(s: System, y: nat)
    requires LossInv(s) && NoneLost(s) && ClearsItsOwn(s, Clear(y))
    ensures LossInv(Next(s, Clear(y))) && NoneLost(Next(s, Clear(y)))
  {
    var t := Next(s, Clear(y));
    forall e | e in t.events && t.events[e].Consumed? && ServedBySync(s.syncs, t.events[e].tick)
      ensures ServedBySync(t.syncs, t.events[e].tick)
    {
      ServedStays(s, Clear(y), t.events[e].tick);
    }
    forall e | e in t.events ensures InSight(t, t.events[e]) {
      assert InSight(s, s.events[e]);
      if t.row.requestedAt != s.row.requestedAt && s.events[e].Consumed? {
        var last := s.requests[|s.requests| - 1];
        var i :| 0 <= i < |s.requests| && s.requests[i] == Request(s.events[e].at, s.events[e].tick, true);
        if last.forEvents {
          assert s.events[e].tick <= last.tick < t.syncs[y].tick && t.syncs[y].pc.Clearing?;
        }
      }
    }
  }

  /** Whatever the request times, every event stays in sight throughout a run if and only if
      every completing sync of the run clears only what was requested before its claim. */
  lemma {:induction false} NoneLostIff(s: System, steps: seq<Step>)
    requires LossInv(s) && NoneLost(s)
    ensures NeverLost(s, steps) <==> AlwaysClearsItsOwn(s, steps)
    decreases |steps|
  {
    if steps != [] {
      var step := steps[0];
      if ClearsItsOwn(s, step) {
        match step {
          case Enqueue(picked, now) => EnqueueStep(s, picked, now);
          case RequestStale(now) => RequestStaleStep(s, now);
          case Clear(y) => OwnRequestIsServed(s, y);
          case _ => OtherStep(s, step);
        }
        NoneLostIff(Next(s, step), steps[1..]);
      } else {
        TakenRequestIsLost(s, step.sync);
        LostAtOnce(Next(s, step), steps[1..]);
      }
    }
  }

  ghost predicate NeverLost(s: System, steps: seq<Step>)
    decreases |steps|
  {
    NoneLost(s) && (steps == [] || NeverLost(Next(s, steps[0]), steps[1..]))
  }

  predicate AlwaysClearsItsOwn(s: System, steps: seq<Step>)
    decreases |steps|
  {
    steps == [] || (ClearsItsOwn(s, steps[0]) && AlwaysClearsItsOwn(Next(s, steps[0]), steps[1..]))
  }

  lemma LostAtOnce(s: System, steps: seq<Step>)
    requires !NoneLost(s)
    ensures !NeverLost(s, steps)
  {
  }

  /** Strictly increasing request times are enough for that. */
  lemma {:induction false} LaterTimesClearTheirOwn(s: System, steps: seq<Step>)
    requires SyncInv(s) && StrictlyLater(s, steps)
    ensures AlwaysClearsItsOwn(s, steps)
    decreases |steps|
  {
    if steps != [] {
      SyncStep(s, steps[0]);
      LaterTimesClearTheirOwn(Next(s, steps[0]), steps[1..]);
      if steps[0].Clear? && steps[0].sync in s.syncs && s.syncs[steps[0].sync].pc.Running?
         && Cleared(s.row, s.syncs[steps[0].sync].requestedAt) != s.row {
        var seen := s.syncs[steps[0].sync];
        var i :| 0 <= i < |s.requests| && s.requests[i].at == seen.requestedAt.value && s.requests[i].tick < seen.tick;
        assert i == |s.requests| - 1;
      }
    }
  }

  /** Two requests at the same time, one before and one after a claim: the sync clears both,
      and the second event is consumed by no later sync. */
  lemma EqualTimesLoseARequest()
    ensures exists steps :: !AllServed(After(START, steps))
  {
    var steps := [Happen(0), Happen(1), Enqueue({0}, 5), Claim(0, 6), Enqueue({1}, 5), Clear(0)];
    var s1 := Next(START, steps[0]);
    var s2 := Next(s1, steps[1]);
    var s3 := Next(s2, steps[2]);
    var s4 := Next(s3, steps[3]);
    var s5 := Next(s4, steps[4]);
    var s6 := Next(s5, steps[5]);
    assert s6.events[1] == Consumed(5, 4) && s6.row.requestedAt.None?;
    assert s6.syncs.Keys == {0} && s6.syncs[0].tick == 3;
    assert !Served(s6, s6.events[1]);
    assert After(START, steps) == s6 by {
      hide Next;
      assert steps[1..][1..] == steps[2..] && steps[2..][1..] == steps[3..] && steps[3..][1..] == steps[4..];
      assert steps[4..][1..] == steps[5..] && steps[5..][1..] == [];
      assert After(s5, steps[5..]) == s6;
      assert After(s4, steps[4..]) == s6;
      assert After(s3, steps[3..]) == s6;
      assert After(s2, steps[2..]) == s6;
      assert After(s1, steps[1..]) == s6;
    }
  }
}

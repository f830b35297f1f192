/** The project-state cache (packages/integration-github, projectStateCache.ts): the table of
    entries, and runs of calls, fetches and invalidations over it. An entry or a run is named
    by the tick of the event that created it; a fetch carries the tick at which it began. */
module ProjectStateCache {
  import opened Wrappers
  import opened ProjectStateCacheKey

  const LIMIT := 128
  const TTL := 15_000

  /** One entry of the insertion-ordered map, with the request that created it. */
  datatype Slot = Slot(id: nat, request: Request)

  datatype Invalidation = ForRepo(repoKey: string) | ForInstallation(installationId: string)

  predicate Hits(what: Invalidation, r: Request) {
    match what
    case ForRepo(repoKey) => RepoKey(r) == Folded(repoKey)
    case ForInstallation(installationId) => r.installationId == installationId
  }

  function Find(slots: seq<Slot>, r: Request): (found: Option<Slot>)
    ensures found.Some? ==> found.value in slots && CacheKey(found.value.request) == CacheKey(r)
    ensures found.None? ==> forall i | 0 <= i < |slots| :: CacheKey(slots[i].request) != CacheKey(r)
  {
    if slots == [] then None
    else if CacheKey(slots[0].request) == CacheKey(r) then Some(slots[0])
    else Find(slots[1..], r)
  }

  /** The entries that stay, in their order. */
  function Kept(slots: seq<Slot>, what: Invalidation): (kept: seq<Slot>) {
    if slots == [] then []
    else (if Hits(what, slots[0].request) then [] else [slots[0]]) + Kept(slots[1..], what)
  }

  function Added(slots: seq<Slot>, slot: Slot): seq<Slot> {
    (if |slots| >= LIMIT then slots[1..] else slots) + [slot]
  }

  predicate Bounded(slots: seq<Slot>) {
    && |slots| <= LIMIT
    && forall i, j | 0 <= i < j < |slots| :: CacheKey(slots[i].request) != CacheKey(slots[j].request)
  }

  class Entries {
    var slots: seq<Slot>

    constructor ()
      ensures slots == [] && Bounded(slots)
    {
      slots := [];
    }

    /** The entry of a request: the present one, or a new one, the oldest making room for it. */
    method Open(r: Request, id: nat) returns (slot: Slot)
      requires Bounded(slots)
      modifies this
      ensures Bounded(slots) && |slots| <= 128 && slot in slots && CacheKey(slot.request) == CacheKey(r)
      ensures Find(old(slots), r).Some? ==> slot == Find(old(slots), r).value && slots == old(slots)
      ensures Find(old(slots), r).None? ==> slot == Slot(id, r) && slots == Added(old(slots), slot)
    {
      hide CacheKey;
      var existing := Find(slots, r);
      if existing.Some? {
        return existing.value;
      }
      slot := Slot(id, r);
      if |slots| >= LIMIT {
        slots := slots[1..];
      }
      slots := slots + [slot];
    }

    method Invalidate(what: Invalidation)
      requires Bounded(slots)
      modifies this
      ensures slots == Kept(old(slots), what) && Bounded(slots)
      ensures forall s :: s in slots <==> s in old(slots) && !Hits(what, s.request)
    {
      hide CacheKey, Hits, Bounded;
      ghost var was := slots;
      var rest := slots;
      slots := [];
      while rest != []
        invariant slots + Kept(rest, what) == Kept(was, what)
        decreases |rest|
      {
        if !Hits(what, rest[0].request) {
          slots := slots + [rest[0]];
        }
        rest := rest[1..];
      }
      KeptBounded(was, what);
    }
  }

  lemma {:induction false} KeptBounded(slots: seq<Slot>, what: Invalidation)
    requires Bounded(slots)
    ensures forall s :: s in Kept(slots, what) <==> s in slots && !Hits(what, s.request)
    ensures |Kept(slots, what)| <= |slots| && Bounded(Kept(slots, what))
  {
    hide CacheKey, Hits;
    if slots != [] {
      KeptBounded(slots[1..], what);
      assert slots == [slots[0]] + slots[1..];
      assert forall s | s in Kept(slots[1..], what) :: CacheKey(s.request) != CacheKey(slots[0].request);
    }
  }

  // ---------- runs ----------

  datatype Data = Data(began: nat, states: string)
  datatype Failure = RepoGone | RateLimited | GitHubFailure

  /** Why data is marked. The first two are both answered as stale: the entry was dropped while
      its fetch ran, or GitHub failed and the entry's snapshot is served instead. */
  datatype Mark = Dropped | Outage | Limited

  /** What a call answers: fresh data, data marked as old, or the failure. */
  datatype Reply = Fresh(data: Data) | Marked(data: Data, mark: Mark) | Failed(failure: Failure)

  datatype State = State(run: Option<nat>, snapshot: Option<Data>)

  /** A fetch cached for TTL after it ends and shared by everyone who asks meanwhile. */
  datatype Run = Run(inFlight: Option<nat>, cached: Option<Result<Data, Failure>>, until: int)

  datatype Pc =
    | Opened
    | Attached(run: nat)
    | Waiting(run: nat)
    | Answered(run: nat, result: Result<Data, Failure>)
    | Replied(reply: Reply, at: nat)

  datatype Call = Call(request: Request, begun: nat, slot: Slot, pc: Pc)

  datatype System = System(
    slots: seq<Slot>, states: map<nat, State>, runs: map<nat, Run>, calls: map<nat, Call>,
    invalidated: seq<(nat, Invalidation)>, tick: nat, now: int)

  const START := System([], map[], map[], map[], [], 0, 0)

  datatype Step =
    | Pass(elapsed: nat)
    | Open(call: nat, request: Request)
    | Attach(call: nat)
    | Ask(call: nat)
    | Land(run: nat, states: Result<string, Failure>)
    | Reply(call: nat)
    | Invalidate(what: Invalidation)

  function OpenFor(s: System, c: nat, r: Request): System {
    var found := Find(s.slots, r);
    var slot := if found.Some? then found.value else Slot(s.tick, r);
    s.(slots := if found.Some? then s.slots else Added(s.slots, slot),
       states := if found.Some? then s.states else s.states[s.tick := State(None, None)],
       calls := s.calls[c := Call(r, s.tick, slot, Opened)])
  }

  function StateAt(s: System, id: nat): State {
    if id in s.states then s.states[id] else State(None, None)
  }

  function RunAt(s: System, r: nat): Run {
    if r in s.runs then s.runs[r] else Run(None, None, 0)
  }

  /** A step of one call writes one entry's state, one run and the call. */
  function With(s: System, id: nat, state: State, r: nat, run: Run, c: nat, call: Call): System {
    s.(states := s.states[id := state], runs := s.runs[r := run], calls := s.calls[c := call], tick := s.tick + 1)
  }

  function AttachFor(s: System, c: nat): System
    requires c in s.calls
  {
    var call := s.calls[c];
    var id := call.slot.id;
    var state := StateAt(s, id);
    var r := if state.run.Some? then state.run.value else s.tick;
    With(s, id, state.(run := Some(r)), r, RunAt(s, r), c, call.(pc := Attached(r)))
  }

  function AskFor(s: System, c: nat): System
    requires c in s.calls && s.calls[c].pc.Attached?
  {
    var call := s.calls[c];
    var id, r := call.slot.id, call.pc.run;
    var run := RunAt(s, r);
    if run.inFlight.Some? then
      With(s, id, StateAt(s, id), r, run, c, call.(pc := Waiting(r)))
    else if run.cached.Some? && s.now < run.until then
      With(s, id, StateAt(s, id), r, run, c, call.(pc := Answered(r, run.cached.value)))
    else
      With(s, id, StateAt(s, id), r, Run(Some(s.tick), None, 0), c, call.(pc := Waiting(r)))
  }

  /** The fetch of a run ends: its result is cached and everyone waiting for it gets it. */
  function LandFor(s: System, r: nat, states: Result<string, Failure>): System
    requires r in s.runs && s.runs[r].inFlight.Some?
  {
    var result := if states.Ok? then Ok(Data(s.runs[r].inFlight.value, states.value)) else Err(states.error);
    s.(runs := s.runs[r := Run(None, Some(result), s.now + TTL)],
       calls := map c | c in s.calls ::
         if s.calls[c].pc == Waiting(r) then s.calls[c].(pc := Answered(r, result)) else s.calls[c])
  }

  /** What the call answers and what it leaves in its entry. */
  function Outcome(current: bool, state: State, run: nat, result: Result<Data, Failure>): (Reply, State) {
    match result
    case Ok(data) => if current then (Fresh(data), state.(snapshot := Some(data))) else (Marked(data, Dropped), state)
    case Err(failure) =>
      var mine := state.run == Some(run);
      var left := State(if mine then None else state.run, if mine && failure.RepoGone? then None else state.snapshot);
      var reply := if failure.RepoGone? || !current || left.snapshot.None? then Failed(failure)
                   else Marked(left.snapshot.value, if failure.RateLimited? then Limited else Outage);
      (reply, left)
  }

  predicate IsCurrent(s: System, slot: Slot, r: Request) { Find(s.slots, r) == Some(slot) }

  function ReplyFor(s: System, c: nat): System
    requires c in s.calls && s.calls[c].pc.Answered?
  {
    var call := s.calls[c];
    var id, r := call.slot.id, call.pc.run;
    var (reply, state) := Outcome(IsCurrent(s, call.slot, call.request), StateAt(s, id), r, call.pc.result);
    With(s, id, state, r, RunAt(s, r), c, call.(pc := Replied(reply, s.tick)))
  }

  /** A step that does not apply in the current state only lets a tick pass. */
  function Next(s: System, step: Step): System {
    var t :=
      match step
      case Pass(elapsed) => s.(now := s.now + elapsed)
      case Open(c, r) => if c in s.calls then s else OpenFor(s, c, r)
      case Attach(c) =>
        if c in s.calls && s.calls[c].pc.Opened? then AttachFor(s, c) else s
      case Ask(c) =>
        if c in s.calls && s.calls[c].pc.Attached? then AskFor(s, c) else s
      case Land(r, states) => if r in s.runs && s.runs[r].inFlight.Some? then LandFor(s, r, states) else s
      case Reply(c) =>
        if c in s.calls && s.calls[c].pc.Answered? then ReplyFor(s, c) else s
      case Invalidate(what) => s.(slots := Kept(s.slots, what), invalidated := s.invalidated + [(s.tick, what)]);
    t.(tick := s.tick + 1)
  }

  function After(s: System, steps: seq<Step>): System
    decreases |steps|
  {
    if steps == [] then s else After(Next(s, steps[0]), steps[1..])
  }

  // ---------- the table ----------

  lemma AddedBounded(slots: seq<Slot>, slot: Slot)
    requires Bounded(slots) && Find(slots, slot.request).None?
    ensures Bounded(Added(slots, slot))
    ensures forall s :: s in Added(slots, slot) ==> s in slots || s == slot
  {
    hide CacheKey;
  }

  lemma BoundedStep(s: System, step: Step)
    requires Bounded(s.slots)
    ensures Bounded(Next(s, step).slots)
  {
    hide Bounded, Find, Added, Kept;
    match step
    case Open(_, r) =>
      if Find(s.slots, r).None? {
        AddedBounded(s.slots, Slot(s.tick, r));
      }
    case Invalidate(what) => KeptBounded(s.slots, what);
    case Pass(_) =>
    case Attach(_) =>
    case Ask(_) =>
    case Land(_, _) =>
    case Reply(_) =>
  }

  /** The table never holds more than 128 entries, nor two of one key. */
  lemma {:induction false} AtMost128Entries(s: System, steps: seq<Step>)
    requires Bounded(s.slots)
    ensures Bounded(After(s, steps).slots) && |After(s, steps).slots| <= 128
    ensures forall i, j | 0 <= i < j < |After(s, steps).slots| ::
              CacheKey(After(s, steps).slots[i].request) != CacheKey(After(s, steps).slots[j].request)
    decreases |steps|
  {
    if steps != [] {
      BoundedStep(s, steps[0]);
      AtMost128Entries(Next(s, steps[0]), steps[1..]);
    }
  }

  // ---------- freshness ----------

  ghost predicate DataSince(data: Option<Data>, id: nat) { data.Some? ==> data.value.began >= id }

  ghost predicate ResultSince(result: Result<Data, Failure>, id: nat) { result.Ok? ==> result.value.began >= id }

  ghost predicate StateInv(s: System, id: nat, state: State) {
    && DataSince(state.snapshot, id)
    && (state.run.Some? ==> state.run.value in s.runs && state.run.value >= id)
  }

  ghost predicate RunInv(id: nat, run: Run) {
    && (run.inFlight.Some? ==> run.inFlight.value >= id)
    && (run.cached.Some? ==> ResultSince(run.cached.value, id))
  }

  /** Every invalidation before `until` that hits the request came before tick `since`. */
  ghost predicate UntouchedSince(log: seq<(nat, Invalidation)>, r: Request, since: nat, until: nat) {
    forall i | 0 <= i < |log| && log[i].0 < until && Hits(log[i].1, r) :: log[i].0 < since
  }

  function DataOf(reply: Reply): Option<Data> {
    match reply
    case Fresh(data) => Some(data)
    case Marked(data, _) => Some(data)
    case Failed(_) => None
  }

  /** Everything with data, except data whose entry was dropped meanwhile. This covers every
      reply that is not marked stale, and the stale one served while GitHub fails. */
  predicate FromTheEntry(reply: Reply) { reply.Fresh? || (reply.Marked? && !reply.mark.Dropped?) }

  ghost predicate CallInv(s: System, call: Call) {
    && CacheKey(call.slot.request) == CacheKey(call.request)
    && call.slot.id in s.states && call.begun < s.tick
    && UntouchedSince(s.invalidated, call.request, call.slot.id, call.begun)
    && PcInv(s, call.request, call.slot.id, call.pc)
  }

  ghost predicate PcInv(s: System, r: Request, id: nat, pc: Pc) {
    match pc
    case Opened => true
    case Attached(run) => run in s.runs && run >= id
    case Waiting(run) => run in s.runs && run >= id
    case Answered(run, result) => run in s.runs && run >= id && ResultSince(result, id)
    case Replied(reply, at) =>
      && at < s.tick && DataSince(DataOf(reply), id)
      && (FromTheEntry(reply) ==> UntouchedSince(s.invalidated, r, reply.data.began, at))
  }

  ghost predicate SlotInv(s: System, slot: Slot) {
    slot.id in s.states && slot.id < s.tick && UntouchedSince(s.invalidated, slot.request, slot.id, s.tick)
  }

  ghost predicate FreshInv(s: System) {
    && (forall id | id in s.states :: id < s.tick && StateInv(s, id, s.states[id]))
    && (forall id | id in s.runs :: id < s.tick && RunInv(id, s.runs[id]))
    && (forall i | 0 <= i < |s.slots| :: SlotInv(s, s.slots[i]))
    && (forall c | c in s.calls :: CallInv(s, s.calls[c]))
    && (forall i | 0 <= i < |s.invalidated| :: s.invalidated[i].0 < s.tick)
  }

  lemma SameKeySameHits(a: Request, b: Request, what: Invalidation)
    requires CacheKey(a) == CacheKey(b)
    ensures Hits(what, a) == Hits(what, b)
  {
    KeysAgreeIff(a, b);
  }

  lemma SameKeyUntouched(log: seq<(nat, Invalidation)>, a: Request, b: Request, since: nat, until: nat)
    requires CacheKey(a) == CacheKey(b) && UntouchedSince(log, a, since, until)
    ensures UntouchedSince(log, b, since, until)
  {
    forall i | 0 <= i < |log| && log[i].0 < until && Hits(log[i].1, b) ensures log[i].0 < since {
      SameKeySameHits(a, b, log[i].1);
    }
  }

  lemma UntouchedEarlier(log: seq<(nat, Invalidation)>, r: Request, since: nat, later: nat, until: nat)
    requires UntouchedSince(log, r, since, until) && since <= later
    ensures UntouchedSince(log, r, later, until)
  {
  }

  /** What every step but an invalidation does to the parts that the invariants mention. */
  ghost predicate Grows(s: System, t: System) {
    && t.tick == s.tick + 1 && t.invalidated == s.invalidated
    && s.states.Keys <= t.states.Keys && s.runs.Keys <= t.runs.Keys
  }

  lemma SlotStays(s: System, t: System, slot: Slot)
    requires SlotInv(s, slot) && Grows(s, t) && forall i | 0 <= i < |s.invalidated| :: s.invalidated[i].0 < s.tick
    ensures SlotInv(t, slot)
  {
  }

  lemma CallStays(s: System, t: System, call: Call)
    requires CallInv(s, call) && Grows(s, t)
    ensures CallInv(t, call)
  {
    hide CacheKey, UntouchedSince, ResultSince, DataSince;
  }

  lemma StateStays(s: System, t: System, id: nat, state: State)
    requires StateInv(s, id, state) && Grows(s, t)
    ensures StateInv(t, id, state)
  {
  }

  lemma FreshFrame(s: System, t: System)
    requires FreshInv(s) && Grows(s, t)
    requires forall id | id in t.states && !(id in s.states && s.states[id] == t.states[id]) ::
               id < t.tick && StateInv(t, id, t.states[id])
    requires forall id | id in t.runs && !(id in s.runs && s.runs[id] == t.runs[id]) :: id < t.tick && RunInv(id, t.runs[id])
    requires forall i | 0 <= i < |t.slots| && t.slots[i] !in s.slots :: SlotInv(t, t.slots[i])
    requires forall c | c in t.calls && !(c in s.calls && s.calls[c] == t.calls[c]) :: CallInv(t, t.calls[c])
    ensures FreshInv(t)
  {
    hide StateInv, RunInv, SlotInv, CallInv, Grows;
    assert t.tick == s.tick + 1 && t.invalidated == s.invalidated by { GrowsTick(s, t); }
    forall id | id in t.states ensures id < t.tick && StateInv(t, id, t.states[id]) {
      if id in s.states && s.states[id] == t.states[id] {
        StateStays(s, t, id, t.states[id]);
      }
    }
    forall i | 0 <= i < |t.slots| ensures SlotInv(t, t.slots[i]) {
      if t.slots[i] in s.slots {
        var j :| 0 <= j < |s.slots| && s.slots[j] == t.slots[i];
        SlotStays(s, t, s.slots[j]);
      }
    }
    forall c | c in t.calls ensures CallInv(t, t.calls[c]) {
      if c in s.calls && s.calls[c] == t.calls[c] {
        CallStays(s, t, t.calls[c]);
      }
    }
  }

  lemma GrowsTick(s: System, t: System)
    requires Grows(s, t)
    ensures t.tick == s.tick + 1 && t.invalidated == s.invalidated
  {
  }

  lemma CurrentIsUntouched(s: System, slot: Slot, r: Request)
    requires FreshInv(s) && Find(s.slots, r) == Some(slot)
    ensures CacheKey(slot.request) == CacheKey(r) && slot.id in s.states
    ensures UntouchedSince(s.invalidated, r, slot.id, s.tick)
  {
    assert slot in s.slots;
    var i :| 0 <= i < |s.slots| && s.slots[i] == slot;
    assert SlotInv(s, s.slots[i]);
    SameKeyUntouched(s.invalidated, slot.request, r, slot.id, s.tick);
  }

  lemma OpenKeepsFresh(s: System, c: nat, r: Request)
    requires FreshInv(s) && c !in s.calls
    ensures FreshInv(OpenFor(s, c, r).(tick := s.tick + 1))
  {
    hide PcInv;
    var t := OpenFor(s, c, r).(tick := s.tick + 1);
    var slot := t.calls[c].slot;
    if Find(s.slots, r).Some? {
      CurrentIsUntouched(s, slot, r);
    } else {
      assert forall i | 0 <= i < |s.invalidated| :: s.invalidated[i].0 < s.tick;
    }
    assert UntouchedSince(s.invalidated, r, slot.id, s.tick);
    assert forall i | 0 <= i < |t.slots| :: t.slots[i] in s.slots || t.slots[i] == slot;
    hide CacheKey, Find, FreshInv, CallInv, StateInv, RunInv;
    NewCall(t, t.calls[c], s.tick);
    assert forall i | 0 <= i < |t.slots| && t.slots[i] !in s.slots :: SlotInv(t, t.slots[i]) by {
      InvalidatedBefore(s);
    }
    assert StateInv(t, s.tick, State(None, None)) by { EmptyState(t, s.tick); }
    FreshFrame(s, t);
  }

  lemma InvalidatedBefore(s: System)
    requires FreshInv(s)
    ensures forall i | 0 <= i < |s.invalidated| :: s.invalidated[i].0 < s.tick
  {
  }

  lemma EmptyState(s: System, id: nat)
    ensures StateInv(s, id, State(None, None))
  {
  }

  lemma NewCall(s: System, call: Call, begun: nat)
    requires call == Call(call.request, begun, call.slot, Opened) && begun < s.tick
    requires CacheKey(call.slot.request) == CacheKey(call.request) && call.slot.id in s.states
    requires UntouchedSince(s.invalidated, call.request, call.slot.id, begun)
    ensures CallInv(s, call)
  {
  }

  lemma CallMoves(s: System, t: System, call: Call, pc: Pc)
    requires CallInv(s, call) && Grows(s, t) && PcInv(t, call.request, call.slot.id, pc)
    ensures CallInv(t, call.(pc := pc))
  {
    hide PcInv, CacheKey, UntouchedSince;
  }

  lemma CallFacts(s: System, c: nat)
    requires FreshInv(s) && c in s.calls
    ensures CallInv(s, s.calls[c])
    ensures UntouchedSince(s.invalidated, s.calls[c].request, s.calls[c].slot.id, s.calls[c].begun)
    ensures PcInv(s, s.calls[c].request, s.calls[c].slot.id, s.calls[c].pc)
    ensures s.calls[c].slot.id in s.states && s.calls[c].slot.id < s.tick
    ensures var state := StateAt(s, s.calls[c].slot.id);
            && DataSince(state.snapshot, s.calls[c].slot.id)
            && (state.run.Some? ==> state.run.value in s.runs && state.run.value >= s.calls[c].slot.id)
  {
    assert CallInv(s, s.calls[c]);
  }

  lemma RunFacts(s: System, r: nat)
    requires FreshInv(s)
    ensures RunInv(r, RunAt(s, r)) && (r in s.runs ==> r < s.tick)
  {
  }

  ghost predicate MovesTo(s: System, request: Request, id: nat, r: nat, pc: Pc) {
    match pc
    case Opened => true
    case Attached(run) => run == r >= id
    case Waiting(run) => run == r >= id
    case Answered(run, result) => run == r >= id && ResultSince(result, id)
    case Replied(reply, at) =>
      && at <= s.tick && DataSince(DataOf(reply), id)
      && (FromTheEntry(reply) ==> UntouchedSince(s.invalidated, request, reply.data.began, at))
  }

  lemma MovedPc(s: System, t: System, request: Request, id: nat, r: nat, pc: Pc)
    requires MovesTo(s, request, id, r, pc) && Grows(s, t) && r in t.runs
    ensures PcInv(t, request, id, pc)
  {
    hide UntouchedSince;
  }

  lemma OneCallFrame(s: System, id: nat, state: State, r: nat, run: Run, c: nat, pc: Pc)
    requires FreshInv(s) && c in s.calls && s.calls[c].slot.id == id && r <= s.tick
    requires RunInv(r, run) && DataSince(state.snapshot, id)
    requires state.run.Some? ==> (state.run.value in s.runs || state.run.value == r) && state.run.value >= id
    requires MovesTo(s, s.calls[c].request, id, r, pc)
    ensures FreshInv(With(s, id, state, r, run, c, s.calls[c].(pc := pc)))
  {
    var t := With(s, id, state, r, run, c, s.calls[c].(pc := pc));
    CallFacts(s, c);
    hide FreshInv, CallInv, Find, CacheKey, PcInv, RunInv, MovesTo;
    MovedPc(s, t, s.calls[c].request, id, r, pc);
    CallMoves(s, t, s.calls[c], pc);
    FreshFrame(s, t);
  }

  lemma AttachKeepsFresh(s: System, c: nat)
    requires FreshInv(s) && c in s.calls && s.calls[c].pc.Opened?
    ensures FreshInv(AttachFor(s, c))
  {
    var call := s.calls[c];
    var id := call.slot.id;
    var state := StateAt(s, id);
    var r := if state.run.Some? then state.run.value else s.tick;
    CallFacts(s, c);
    RunFacts(s, r);
    hide FreshInv, CallInv, Find, CacheKey, RunInv;
    OneCallFrame(s, id, state.(run := Some(r)), r, RunAt(s, r), c, Attached(r));
  }

  lemma AskKeepsFresh(s: System, c: nat)
    requires FreshInv(s) && c in s.calls && s.calls[c].pc.Attached?
    ensures FreshInv(AskFor(s, c))
  {
    var id, r := s.calls[c].slot.id, s.calls[c].pc.run;
    var run := RunAt(s, r);
    CallFacts(s, c);
    RunFacts(s, r);
    hide FreshInv, CallInv, Find, CacheKey, StateInv, StateAt, RunAt, With;
    if run.inFlight.Some? {
      OneCallFrame(s, id, StateAt(s, id), r, run, c, Waiting(r));
    } else if run.cached.Some? && s.now < run.until {
      OneCallFrame(s, id, StateAt(s, id), r, run, c, Answered(r, run.cached.value));
    } else {
      OneCallFrame(s, id, StateAt(s, id), r, Run(Some(s.tick), None, 0), c, Waiting(r));
    }
  }

  lemma LandedCall(s: System, t: System, c: nat, r: nat, result: Result<Data, Failure>)
    requires FreshInv(s) && c in s.calls && s.calls[c].pc == Waiting(r) && Grows(s, t)
    requires ResultSince(result, r)
    ensures CallInv(t, s.calls[c].(pc := Answered(r, result)))
  {
    CallFacts(s, c);
    hide FreshInv, CallInv, Find, CacheKey, StateInv;
    CallMoves(s, t, s.calls[c], Answered(r, result));
  }

  lemma LandKeepsFresh(s: System, r: nat, states: Result<string, Failure>)
    requires FreshInv(s) && r in s.runs && s.runs[r].inFlight.Some?
    ensures FreshInv(LandFor(s, r, states).(tick := s.tick + 1))
  {
    var t := LandFor(s, r, states).(tick := s.tick + 1);
    RunFacts(s, r);
    hide FreshInv, CallInv, Find, CacheKey, StateInv, PcInv;
    forall c | c in t.calls && t.calls[c] != s.calls[c] ensures CallInv(t, t.calls[c]) {
      LandedCall(s, t, c, r, t.runs[r].cached.value);
    }
    FreshFrame(s, t);
  }

  /** What is answered and kept is no older than the entry. */
  lemma OutcomeSince(current: bool, state: State, run: nat, result: Result<Data, Failure>, id: nat)
    requires ResultSince(result, id) && DataSince(state.snapshot, id)
    ensures var (reply, left) := Outcome(current, state, run, result);
            && DataSince(DataOf(reply), id) && DataSince(left.snapshot, id)
            && (left.run.Some? ==> left.run == state.run)
            && (reply.Fresh? <==> current && result.Ok?) && (result.Ok? ==> DataOf(reply) == Some(result.value))
            && (result == Err(RepoGone) ==> reply.Failed? && (state.run == Some(run) ==> left == State(None, None)))
            && (result.Err? && state.run == Some(run) ==> left.run.None?)
            && (result.Err? && result != Err(RepoGone) ==>
                  left.snapshot == state.snapshot && (reply.Marked? <==> current && state.snapshot.Some?))
            && (result == Err(RateLimited) && reply.Marked? ==> reply.mark.Limited?)
            && (result == Err(GitHubFailure) && reply.Marked? ==> reply.mark.Outage?)
            && (reply.Failed? ==> result == Err(reply.failure))
            && (FromTheEntry(reply) ==> current)
            && (current && reply.Marked? ==> state.snapshot == Some(reply.data))
  {
  }

  lemma ReplyKeepsFresh(s: System, c: nat)
    requires FreshInv(s) && c in s.calls && s.calls[c].pc.Answered?
    ensures FreshInv(ReplyFor(s, c))
  {
    var call := s.calls[c];
    var id, r := call.slot.id, call.pc.run;
    var current := IsCurrent(s, call.slot, call.request);
    var (reply, state) := Outcome(current, StateAt(s, id), r, call.pc.result);
    CallFacts(s, c);
    RunFacts(s, r);
    OutcomeSince(current, StateAt(s, id), r, call.pc.result, id);
    if FromTheEntry(reply) {
      CurrentIsUntouched(s, call.slot, call.request);
      UntouchedEarlier(s.invalidated, call.request, id, reply.data.began, s.tick);
    }
    hide FreshInv, CallInv, Find, CacheKey, IsCurrent, Outcome, UntouchedSince, DataSince, ResultSince, RunInv;
    OneCallFrame(s, id, state, r, RunAt(s, r), c, Replied(reply, s.tick));
  }

  lemma InvalidateKeepsFresh(s: System, what: Invalidation)
    requires FreshInv(s)
    ensures FreshInv(Next(s, Invalidate(what)))
  {
    var t := Next(s, Invalidate(what));
    KeptOnly(s.slots, what);
    forall i | 0 <= i < |t.slots| ensures SlotInv(t, t.slots[i]) {
      assert t.slots[i] in s.slots && !Hits(what, t.slots[i].request);
      var j :| 0 <= j < |s.slots| && s.slots[j] == t.slots[i];
      assert SlotInv(s, s.slots[j]);
    }
    forall c | c in t.calls ensures CallInv(t, t.calls[c]) {
      assert CallInv(s, s.calls[c]);
      UntouchedBefore(s, what, s.calls[c]);
    }
  }

  lemma UntouchedBefore(s: System, what: Invalidation, call: Call)
    requires CallInv(s, call)
    ensures CallInv(Next(s, Invalidate(what)), call)
  {
    hide CacheKey, Hits;
  }

  lemma {:induction false} KeptOnly(slots: seq<Slot>, what: Invalidation)
    ensures forall s :: s in Kept(slots, what) ==> s in slots && !Hits(what, s.request)
  {
    if slots != [] {
      KeptOnly(slots[1..], what);
    }
  }

  lemma FreshStep(s: System, step: Step)
    requires FreshInv(s)
    ensures FreshInv(Next(s, step))
  {
    hide FreshInv, Find, Added, Kept, Outcome, IsCurrent, OpenFor, LandFor, CallInv, StateInv, RunInv;
    match step
    case Open(c, r) =>
      if c !in s.calls {
        OpenKeepsFresh(s, c, r);
      } else {
        TickKeepsFresh(s, Next(s, step));
      }
    case Attach(c) =>
      if c in s.calls && s.calls[c].pc.Opened? {
        AttachKeepsFresh(s, c);
      } else {
        TickKeepsFresh(s, Next(s, step));
      }
    case Ask(c) =>
      if c in s.calls && s.calls[c].pc.Attached? {
        AskKeepsFresh(s, c);
      } else {
        TickKeepsFresh(s, Next(s, step));
      }
    case Land(r, states) =>
      if r in s.runs && s.runs[r].inFlight.Some? {
        LandKeepsFresh(s, r, states);
      } else {
        TickKeepsFresh(s, Next(s, step));
      }
    case Reply(c) =>
      if c in s.calls && s.calls[c].pc.Answered? {
        ReplyKeepsFresh(s, c);
      } else {
        TickKeepsFresh(s, Next(s, step));
      }
    case Invalidate(what) => InvalidateKeepsFresh(s, what);
    case Pass(elapsed) => TickKeepsFresh(s, Next(s, step));
  }

  lemma TickKeepsFresh(s: System, t: System)
    requires FreshInv(s) && t == s.(tick := s.tick + 1, now := t.now)
    ensures FreshInv(t)
  {
    hide FreshInv, CallInv, StateInv, RunInv;
    FreshFrame(s, t);
  }

  lemma {:induction false} FreshInvHolds(s: System, steps: seq<Step>)
    requires FreshInv(s)
    ensures FreshInv(After(s, steps))
    decreases |steps|
  {
    if steps != [] {
      FreshStep(s, steps[0]);
      FreshInvHolds(Next(s, steps[0]), steps[1..]);
    }
  }

  lemma FreshReply(s: System, c: nat, i: nat)
    requires FreshInv(s) && c in s.calls && s.calls[c].pc.Replied?
    requires i < |s.invalidated| && Hits(s.invalidated[i].1, s.calls[c].request)
    ensures FromTheEntry(s.calls[c].pc.reply) && s.invalidated[i].0 < s.calls[c].pc.at ==>
              s.invalidated[i].0 < s.calls[c].pc.reply.data.began
    ensures DataOf(s.calls[c].pc.reply).Some? && s.invalidated[i].0 < s.calls[c].begun ==>
              s.invalidated[i].0 < DataOf(s.calls[c].pc.reply).value.began
  {
    CallFacts(s, c);
    hide FreshInv, CacheKey, Hits, StateInv, CallInv;
  }

  /** A reply whose entry still stands carries data whose fetch began after the last
      invalidation, before the reply, that hits the call: fresh data, and a snapshot served
      under a rate limit or while GitHub fails. */
  lemma UnstaleReplyIsFresh(steps: seq<Step>, c: nat, i: nat)
    requires c in After(START, steps).calls && After(START, steps).calls[c].pc.Replied?
    requires FromTheEntry(After(START, steps).calls[c].pc.reply)
    requires i < |After(START, steps).invalidated|
    requires Hits(After(START, steps).invalidated[i].1, After(START, steps).calls[c].request)
    requires After(START, steps).invalidated[i].0 < After(START, steps).calls[c].pc.at
    ensures After(START, steps).invalidated[i].0 < After(START, steps).calls[c].pc.reply.data.began
  {
    FreshInvHolds(START, steps);
    hide *;
    FreshReply(After(START, steps), c, i);
  }

  /** A call begun after an invalidation that hits it never returns data fetched before it,
      marked or not. */
  lemma NoDataFromBeforeTheCall(steps: seq<Step>, c: nat, i: nat)
    requires c in After(START, steps).calls && After(START, steps).calls[c].pc.Replied?
    requires DataOf(After(START, steps).calls[c].pc.reply).Some?
    requires i < |After(START, steps).invalidated|
    requires Hits(After(START, steps).invalidated[i].1, After(START, steps).calls[c].request)
    requires After(START, steps).invalidated[i].0 < After(START, steps).calls[c].begun
    ensures After(START, steps).invalidated[i].0 < DataOf(After(START, steps).calls[c].pc.reply).value.began
  {
    FreshInvHolds(START, steps);
    hide *;
    FreshReply(After(START, steps), c, i);
  }

  // ---------- one fetch for everyone ----------

  /** A call joins the run of its entry, which becomes one if there is none. */
  lemma AttachShares(s: System, c: nat)
    requires c in s.calls && s.calls[c].pc.Opened?
    ensures var t, id := Next(s, Attach(c)), s.calls[c].slot.id;
            var shared := id in s.states && s.states[id].run.Some?;
            && c in t.calls && t.calls[c].pc == Attached(if shared then s.states[id].run.value else s.tick)
            && id in t.states && t.states[id].run == Some(t.calls[c].pc.run)
            && t.states[id].snapshot == (if id in s.states then s.states[id].snapshot else None)
            && t.slots == s.slots && forall i | i in s.states && i != id :: i in t.states && t.states[i] == s.states[i]
  {
  }

  /** When a fetch ends, everyone who waits for it gets what it brought, and only they do. */
  lemma LandAnswersAll(s: System, r: nat, states: Result<string, Failure>)
    requires r in s.runs && s.runs[r].inFlight.Some?
    ensures var t := Next(s, Land(r, states));
            && t.calls.Keys == s.calls.Keys && t.slots == s.slots && t.states == s.states
            && (forall c | c in s.calls && s.calls[c].pc != Waiting(r) :: t.calls[c] == s.calls[c])
            && forall c | c in s.calls && s.calls[c].pc == Waiting(r) ::
                 && t.calls[c].request == s.calls[c].request && t.calls[c].slot == s.calls[c].slot
                 && t.calls[c].pc.Answered? && t.calls[c].pc.run == r
                 && (states.Ok? ==> t.calls[c].pc.result == Ok(Data(s.runs[r].inFlight.value, states.value)))
                 && (states.Err? ==> t.calls[c].pc.result == Err(states.error))
  {
  }

  /** A call is answered fresh exactly when it got data and its entry still stands; that data
      stays as the entry's snapshot. */
  lemma ReplyLeaves(s: System, c: nat)
    requires c in s.calls && s.calls[c].pc.Answered?
    ensures var t, call := Next(s, Reply(c)), s.calls[c];
            var current := Find(s.slots, call.request) == Some(call.slot);
            && c in t.calls && t.calls[c].pc.Replied? && call.slot.id in t.states && t.slots == s.slots
            && (t.calls[c].pc.reply.Fresh? <==> current && call.pc.result.Ok?)
            && (t.calls[c].pc.reply.Fresh? ==>
                  t.calls[c].pc.reply.data == call.pc.result.value
                  && t.states[call.slot.id].snapshot == Some(call.pc.result.value))
            && (call.pc.result == Err(RepoGone) && call.slot.id in s.states && s.states[call.slot.id].run == Some(call.pc.run) ==>
                  t.states[call.slot.id] == State(None, None))
  {
  }

  // ---------- how long a result is served ----------

  lemma {:induction false} AfterLast(s: System, steps: seq<Step>, last: Step)
    ensures After(s, steps + [last]) == Next(After(s, steps), last)
    decreases |steps|
  {
    if steps == [] {
      assert [last][1..] == [];
    } else {
      assert (steps + [last])[1..] == steps[1..] + [last];
      AfterLast(Next(s, steps[0]), steps[1..], last);
    }
  }

  /** The system before the j-th step. */
  function Before(steps: seq<Step>, j: nat): System
    requires j <= |steps|
  {
    After(START, steps[..j])
  }

  /** The j-th step ends a fetch of this run. */
  ghost predicate Lands(steps: seq<Step>, j: nat, run: nat) {
    && j < |steps| && steps[j].Land? && steps[j].run == run
    && run in Before(steps, j).runs && Before(steps, j).runs[run].inFlight.Some?
  }

  /** What the fetch that the j-th step ends brought, with the tick at which it began. */
  ghost predicate Brought(steps: seq<Step>, j: nat, run: nat, result: Result<Data, Failure>)
    requires Lands(steps, j, run)
  {
    match steps[j].states
    case Ok(states) => result == Ok(Data(Before(steps, j).runs[run].inFlight.value, states))
    case Err(failure) => result == Err(failure)
  }

  /** A run between two fetches holds the result of one that ended, until TTL after its end;
      a run that fetches does so for no landing within TTL. */
  ghost predicate RunHistory(steps: seq<Step>, r: nat) {
    var s := After(START, steps);
    var run := RunAt(s, r);
    && (run.cached.Some? ==>
          && run.inFlight.None?
          && exists j | 0 <= j < |steps| ::
               Lands(steps, j, r) && Brought(steps, j, r, run.cached.value) && run.until == Before(steps, j).now + 15_000)
    && forall j | 0 <= j < |steps| && Lands(steps, j, r) ::
         && Before(steps, j).now <= s.now
         && if run.inFlight.Some? then Before(steps, j).now + 15_000 <= s.now
            else run.cached.Some? && Before(steps, j).now + 15_000 <= run.until
  }

  lemma LandsEarlier(steps: seq<Step>, last: Step, j: nat, r: nat)
    requires j < |steps|
    ensures Before(steps + [last], j) == Before(steps, j)
    ensures Lands(steps + [last], j, r) <==> Lands(steps, j, r)
    ensures (steps + [last])[j] == steps[j]
  {
    assert (steps + [last])[..j] == steps[..j];
  }

  lemma LandsLast(steps: seq<Step>, last: Step, r: nat)
    ensures Before(steps + [last], |steps|) == After(START, steps)
    ensures Lands(steps + [last], |steps|, r) <==>
              last.Land? && last.run == r && RunAt(After(START, steps), r).inFlight.Some?
  {
    assert (steps + [last])[..|steps|] == steps;
  }

  /** What one step does to a run. */
  ghost predicate RunMoves(s: System, t: System, step: Step, r: nat) {
    var run, left := RunAt(s, r), RunAt(t, r);
    && s.now <= t.now
    && if step.Land? && step.run == r && run.inFlight.Some? then
         left.inFlight.None? && left.cached.Some? && left.until == s.now + 15_000
         && left.cached.value == if step.states.Ok? then Ok(Data(run.inFlight.value, step.states.value)) else Err(step.states.error)
       else
         left == run
         || (run.inFlight.None? && !(run.cached.Some? && s.now < run.until) && left.inFlight.Some? && left.cached.None?)
  }

  lemma RunStep(s: System, step: Step, r: nat)
    ensures RunMoves(s, Next(s, step), step, r)
  {
    hide Find, Added, Kept, Outcome, IsCurrent, StateAt;
    match step
    case Open(_, _) =>
    case Invalidate(_) =>
    case Pass(_) =>
    case Attach(_) =>
    case Ask(_) =>
    case Land(_, _) =>
    case Reply(_) =>
  }

  lemma RunHistoryGrows(steps: seq<Step>, last: Step, r: nat)
    requires RunHistory(steps, r)
    ensures RunHistory(steps + [last], r)
  {
    var s := After(START, steps);
    var t := Next(s, last);
    var run := RunAt(t, r);
    var more := steps + [last];
    AfterLast(START, steps, last);
    RunStep(s, last, r);
    LandsLast(steps, last, r);
    hide Next, After, Before;
    forall j | 0 <= j < |steps| ensures more[j] == steps[j] && Before(more, j) == Before(steps, j)
                                        && (Lands(more, j, r) <==> Lands(steps, j, r)) {
      LandsEarlier(steps, last, j, r);
    }
    if run.cached.Some? {
      if Lands(more, |steps|, r) {
        assert Brought(more, |steps|, r, run.cached.value);
      } else {
        var j :| 0 <= j < |steps| && Lands(steps, j, r) && Brought(steps, j, r, run.cached.value)
                 && run.until == Before(steps, j).now + 15_000;
        assert Lands(more, j, r) && Brought(more, j, r, run.cached.value);
      }
    }
    forall j | 0 <= j < |more| && Lands(more, j, r)
      ensures Before(more, j).now <= t.now
      ensures if run.inFlight.Some? then Before(more, j).now + 15_000 <= t.now
              else run.cached.Some? && Before(more, j).now + 15_000 <= run.until
    {
      if j < |steps| {
        assert Lands(steps, j, r);
      }
    }
  }

  lemma {:induction false} RunHistoryHolds(steps: seq<Step>, r: nat)
    ensures RunHistory(steps, r)
  {
    if steps != [] {
      var front := steps[..|steps| - 1];
      RunHistoryHolds(front, r);
      RunHistoryGrows(front, steps[|steps| - 1], r);
      assert steps == front + [steps[|steps| - 1]];
    }
  }

  /** A call is answered from the cache exactly when its run fetches nothing and a fetch of it
      ended less than 15 seconds ago, and it gets what such a fetch brought; otherwise it waits
      for the fetch that runs or for a new one. */
  lemma ServedWhileFreshIff(steps: seq<Step>, c: nat)
    requires c in After(START, steps).calls && After(START, steps).calls[c].pc.Attached?
    ensures var s, t := After(START, steps), After(START, steps + [Ask(c)]);
            var r := s.calls[c].pc.run;
            && c in t.calls
            && (t.calls[c].pc.Answered? <==>
                  && (r in s.runs ==> s.runs[r].inFlight.None?)
                  && exists j | 0 <= j < |steps| :: Lands(steps, j, r) && s.now < Before(steps, j).now + 15_000)
            && (t.calls[c].pc.Answered? ==>
                  exists j | 0 <= j < |steps| ::
                    && Lands(steps, j, r) && s.now < Before(steps, j).now + 15_000
                    && Brought(steps, j, r, t.calls[c].pc.result))
            && (!t.calls[c].pc.Answered? ==>
                  t.calls[c].pc == Waiting(r) && r in t.runs && t.runs[r].inFlight.Some?)
  {
    var s := After(START, steps);
    var r := s.calls[c].pc.run;
    AfterLast(START, steps, Ask(c));
    RunHistoryHolds(steps, r);
    hide After, Lands, Brought, Before, Find, Added, Kept, Outcome, IsCurrent, StateAt;
    assert After(START, steps + [Ask(c)]) == AskFor(s, c).(tick := s.tick + 1);
  }
}

/** Any number of calls to accessTokenFor interleaved with each other, with reconnects and with
    disconnects, over one stored row. A worker that stops forever simply takes no more steps. */
module LeaseRuns {
  import opened Wrappers
  import opened CredentialRow

  datatype Pc =
    | Reading
    | Claiming(seen: Integration, at: Time)
    | Working(lease: nat, seen: Integration, claimed: Integration, task: Task)
    | Done(outcome: Outcome)

  /** `firstRead` is the number of token writes before a forced call's first look at the row. */
  datatype Worker = Worker(force: bool, deadline: Time, baseline: Option<Sealed>, firstRead: nat, pc: Pc)

  /** `writes` lists every pair of tokens ever stored; `nextId` numbers leases and seals. */
  datatype System = System(row: Option<Integration>, workers: map<nat, Worker>, writes: seq<Grant>, nextId: nat, now: Time)

  datatype Step =
    | Tick(elapsed: nat)
    | Call(w: nat, force: bool)
    | Look(w: nat, opens: bool)
    | ClaimLease(w: nat)
    | Hear(w: nat, answer: Answer)
    | Settle(w: nat)
    | Connect(access: string, refresh: string, expiresAt: Time, scopes: set<string>)
    | Mark(reason: string)
    | Disconnect

  const START := System(None, map[], [], 0, 0)

  function At(s: System, w: nat, pc: Pc): System
    requires w in s.workers
  {
    s.(workers := s.workers[w := s.workers[w].(pc := pc)])
  }

  function LookAt(s: System, w: nat, opens: bool): System
    requires w in s.workers
  {
    var me := s.workers[w];
    var first := me.force && me.baseline.None? && s.row.Some? && s.row.value.standing.Active?;
    var you := if first then me.(baseline := Some(s.row.value.access), firstRead := |s.writes|) else me;
    var pc :=
      match Decide(s.row, you.baseline, s.now)
      case Stop(outcome) => Done(outcome)
      case Serve => Done(Opened(s.row.value.access, opens))
      case Claim => Claiming(s.row.value, s.now);
    s.(workers := s.workers[w := you.(pc := pc)])
  }

  function ClaimFor(s: System, w: nat): System
    requires w in s.workers && s.workers[w].pc.Claiming?
  {
    var me := s.workers[w];
    if Claimable(s.row, me.pc.at) then
      var row := Claimed(s.row.value, s.nextId, me.pc.at);
      At(s, w, Working(s.nextId, me.pc.seen, row, Refresh)).(row := Some(row), nextId := s.nextId + 1)
    else At(s, w, if me.pc.at >= me.deadline then Done(Contention) else Reading)
  }

  function SettleFor(s: System, w: nat): System
    requires w in s.workers && s.workers[w].pc.Working?
  {
    var pc := s.workers[w].pc;
    var mine := HasLease(s.row, pc.lease);
    At(s, w, if pc.task.Persist? && !mine then Reading else Done(OutcomeOf(pc.task))).(
      row := Written(s.row, pc.lease, pc.task),
      writes := if pc.task.Persist? && mine then s.writes + [pc.task.grant] else s.writes)
  }

  /** A step that does not apply in the current state leaves the system alone. */
  function Next(s: System, step: Step): System {
    match step
    case Tick(elapsed) => s.(now := s.now + elapsed)
    case Call(w, force) =>
      if w in s.workers then s
      else s.(workers := s.workers[w := Worker(force, s.now + DEADLINE, None, 0, Reading)])
    case Look(w, opens) => if w in s.workers && s.workers[w].pc.Reading? then LookAt(s, w, opens) else s
    case ClaimLease(w) => if w in s.workers && s.workers[w].pc.Claiming? then ClaimFor(s, w) else s
    case Hear(w, answer) =>
      if w in s.workers && s.workers[w].pc.Working? && s.workers[w].pc.task.Refresh?
      then At(s, w, s.workers[w].pc.(task := TaskFor(answer, s.nextId))).(nextId := s.nextId + 2)
      else s
    case Settle(w) =>
      if w in s.workers && s.workers[w].pc.Working? && !s.workers[w].pc.task.Refresh? then SettleFor(s, w) else s
    case Connect(access, refresh, expiresAt, scopes) =>
      var grant := Grant(Sealed(access, s.nextId), Sealed(refresh, s.nextId + 1), expiresAt, scopes);
      s.(row := Connected(grant, if HasRequiredScopes(scopes) then Active else ReconnectRequired(Some("missing_scopes"))),
         writes := s.writes + [grant], nextId := s.nextId + 2)
    case Mark(reason) => s.(row := Marked(s.row, reason))
    case Disconnect => s.(row := None)
  }

  function After(s: System, steps: seq<Step>): System
    decreases |steps|
  {
    if steps == [] then s else After(Next(s, steps[0]), steps[1..])
  }

  ghost predicate Holds(s: System, w: nat, lease: nat) {
    w in s.workers && s.workers[w].pc.Working? && s.workers[w].pc.lease == lease
  }

  // ---------- leases ----------

  /** Lease ids are used once, and while a worker's lease stands the row is as it claimed it. */
  ghost predicate LeaseInv(s: System) {
    && (s.row.Some? && s.row.value.lease.Some? ==>
          s.row.value.lease.value.id < s.nextId && s.row.value.lease.value.expiresAt <= s.now + LEASE)
    && (forall w | w in s.workers && s.workers[w].pc.Claiming? :: s.workers[w].pc.at <= s.now)
    && (forall w | w in s.workers && s.workers[w].pc.Working? ::
          && s.workers[w].pc.lease < s.nextId
          && (HasLease(s.row, s.workers[w].pc.lease) ==> s.row.value == s.workers[w].pc.claimed))
    && (forall v, w | v in s.workers && w in s.workers && v != w && s.workers[v].pc.Working? && s.workers[w].pc.Working? ::
          s.workers[v].pc.lease != s.workers[w].pc.lease)
  }

  lemma ClaimKeepsLeases(s: System, w: nat)
    requires LeaseInv(s)
    ensures LeaseInv(Next(s, ClaimLease(w)))
  {
  }

  lemma SettleKeepsLeases(s: System, w: nat)
    requires LeaseInv(s)
    ensures LeaseInv(Next(s, Settle(w)))
  {
  }

  lemma HearKeepsLeases(s: System, w: nat, answer: Answer)
    requires LeaseInv(s)
    ensures LeaseInv(Next(s, Hear(w, answer)))
  {
  }

  lemma LookKeepsLeases(s: System, w: nat, opens: bool)
    requires LeaseInv(s)
    ensures LeaseInv(Next(s, Look(w, opens)))
  {
  }

  lemma LeaseStep(s: System, step: Step)
    requires LeaseInv(s)
    ensures LeaseInv(Next(s, step))
  {
    match step
    case ClaimLease(w) => ClaimKeepsLeases(s, w);
    case Settle(w) => SettleKeepsLeases(s, w);
    case Hear(w, answer) => HearKeepsLeases(s, w, answer);
    case Look(w, opens) => LookKeepsLeases(s, w, opens);
    case Tick(_) =>
    case Call(_, _) =>
    case Connect(_, _, _, _) =>
    case Mark(_) =>
    case Disconnect =>
  }

  /** The row's lease only changes to none or to a new one. */
  lemma LeaseMoves(s: System, step: Step, lease: nat)
    requires HasLease(Next(s, step).row, lease)
    ensures HasLease(s.row, lease) || lease == s.nextId
    ensures s.nextId <= Next(s, step).nextId
  {
    match step
    case ClaimLease(w) =>
    case Settle(w) =>
    case _ =>
  }

  lemma IdsGrow(s: System, step: Step)
    ensures s.nextId <= Next(s, step).nextId
  {
  }

  lemma {:induction false} LeaseInvHolds(s: System, steps: seq<Step>)
    requires LeaseInv(s)
    ensures LeaseInv(After(s, steps))
    decreases |steps|
  {
    if steps != [] {
      LeaseStep(s, steps[0]);
      LeaseInvHolds(Next(s, steps[0]), steps[1..]);
    }
  }

  /** A lease that was taken over or cleared never comes back. */
  lemma {:induction false} LostLeaseStaysLost(s: System, steps: seq<Step>, lease: nat)
    requires lease < s.nextId && !HasLease(s.row, lease)
    ensures !HasLease(After(s, steps).row, lease)
    decreases |steps|
  {
    if steps != [] {
      IdsGrow(s, steps[0]);
      if HasLease(Next(s, steps[0]).row, lease) {
        LeaseMoves(s, steps[0], lease);
      }
      hide Next, HasLease;
      LostLeaseStaysLost(Next(s, steps[0]), steps[1..], lease);
    }
  }

  /** So a worker that lost its lease changes neither the row nor the tokens, however long it
      lives on and whatever it was about to write. */
  lemma LostWorkerChangesNothing(s: System, w: nat, lease: nat, steps: seq<Step>, step: Step)
    requires LeaseInv(s) && Holds(s, w, lease) && !HasLease(s.row, lease)
    requires Holds(After(s, steps), w, lease)
    requires step == Settle(w) || (step.Hear? && step.w == w)
    ensures Next(After(s, steps), step).row == After(s, steps).row
    ensures Next(After(s, steps), step).writes == After(s, steps).writes
  {
    LostLeaseStaysLost(s, steps, lease);
  }

  lemma HolderMoves(s: System, w: nat, lease: nat, step: Step)
    requires lease < s.nextId && Holds(Next(s, step), w, lease)
    ensures Holds(s, w, lease)
    ensures Next(s, step).workers[w].pc.claimed == s.workers[w].pc.claimed
    ensures Next(s, step).workers[w].pc.seen == s.workers[w].pc.seen
  {
  }

  lemma {:induction false} ClaimIsRemembered(s: System, w: nat, lease: nat, steps: seq<Step>)
    requires lease < s.nextId && Holds(After(s, steps), w, lease)
    ensures Holds(s, w, lease)
    ensures After(s, steps).workers[w].pc.claimed == s.workers[w].pc.claimed
    ensures After(s, steps).workers[w].pc.seen == s.workers[w].pc.seen
    decreases |steps|
  {
    if steps != [] {
      IdsGrow(s, steps[0]);
      ClaimIsRemembered(Next(s, steps[0]), w, lease, steps[1..]);
      HolderMoves(s, w, lease, steps[0]);
    }
  }

  /** A worker that gets to write replaces exactly the row it claimed: the tokens a refresh
      overwrites are the ones that were stored when its lease began. */
  lemma RefreshReplacesWhatItClaimed(s: System, w: nat, steps: seq<Step>)
    requires LeaseInv(s) && w in s.workers && s.workers[w].pc.Claiming?
    requires Claimable(s.row, s.workers[w].pc.at)
    requires Holds(After(Next(s, ClaimLease(w)), steps), w, s.nextId)
    ensures var then_ := After(Next(s, ClaimLease(w)), steps);
            var settled := Next(then_, Settle(w));
            settled.row != then_.row ==>
              && then_.row == Next(s, ClaimLease(w)).row
              && then_.row.value.access == s.row.value.access && then_.row.value.refresh == s.row.value.refresh
  {
    var claimed := Next(s, ClaimLease(w));
    LeaseStep(s, ClaimLease(w));
    ClaimIsRemembered(claimed, w, s.nextId, steps);
    LeaseInvHolds(claimed, steps);
  }

  // ---------- tokens ----------

  ghost predicate IsPersisting(s: System, w: nat) {
    w in s.workers && s.workers[w].pc.Working? && s.workers[w].pc.task.Persist?
  }

  function Nonce(s: System, w: nat): nat
    requires IsPersisting(s, w)
  {
    s.workers[w].pc.task.grant.refresh.nonce
  }

  ghost predicate HoldsLatest(row: Option<Integration>, writes: seq<Grant>) {
    row.Some? ==>
      |writes| > 0 && row.value.access == writes[|writes| - 1].access && row.value.refresh == writes[|writes| - 1].refresh
  }

  ghost predicate SealedOnce(writes: seq<Grant>, nextId: nat) {
    && (forall i | 0 <= i < |writes| :: writes[i].refresh.nonce < nextId)
    && (forall i, j | 0 <= i < j < |writes| :: writes[i].refresh.nonce != writes[j].refresh.nonce)
  }

  ghost predicate Unwritten(writes: seq<Grant>, nonce: nat) {
    forall i | 0 <= i < |writes| :: writes[i].refresh.nonce != nonce
  }

  /** Every seal is used once and the row holds the tokens written last. */
  ghost predicate TokenInv(s: System) {
    && HoldsLatest(s.row, s.writes)
    && SealedOnce(s.writes, s.nextId)
    && (forall w | IsPersisting(s, w) :: Nonce(s, w) < s.nextId && Unwritten(s.writes, Nonce(s, w)))
    && (forall v, w | IsPersisting(s, v) && IsPersisting(s, w) && v != w :: Nonce(s, v) != Nonce(s, w))
  }

  /** The steps that neither seal nor store tokens. */
  ghost predicate KeepsTokens(s: System, t: System) {
    && t.writes == s.writes && t.nextId >= s.nextId
    && (t.row.Some? ==> s.row.Some? && t.row.value.access == s.row.value.access && t.row.value.refresh == s.row.value.refresh)
    && (forall w | IsPersisting(t, w) :: IsPersisting(s, w) && Nonce(t, w) == Nonce(s, w))
  }

  lemma KeptTokens(s: System, t: System)
    requires TokenInv(s) && KeepsTokens(s, t)
    ensures TokenInv(t)
  {
  }

  lemma HearKeepsTokens(s: System, w: nat, answer: Answer)
    requires TokenInv(s)
    ensures TokenInv(Next(s, Hear(w, answer)))
  {
    var t := Next(s, Hear(w, answer));
    if t != s {
      assert forall v | IsPersisting(t, v) && v != w :: IsPersisting(s, v) && Nonce(t, v) == Nonce(s, v);
      assert IsPersisting(t, w) ==> Nonce(t, w) == s.nextId + 1;
    }
  }

  lemma SettleKeepsTokens(s: System, w: nat)
    requires TokenInv(s)
    ensures TokenInv(Next(s, Settle(w)))
  {
    var t := Next(s, Settle(w));
    if t != s {
      assert !IsPersisting(t, w);
      assert forall v | IsPersisting(t, v) :: v != w && IsPersisting(s, v) && Nonce(t, v) == Nonce(s, v);
      if t.writes == s.writes {
        KeptTokens(s, t);
      } else {
        assert IsPersisting(s, w) && t.writes == s.writes + [s.workers[w].pc.task.grant];
      }
    }
  }

  lemma ConnectKeepsTokens(s: System, step: Step)
    requires TokenInv(s) && step.Connect?
    ensures TokenInv(Next(s, step))
  {
    var t := Next(s, step);
    assert forall v | IsPersisting(t, v) :: IsPersisting(s, v) && Nonce(t, v) == Nonce(s, v);
  }

  lemma TokenStep(s: System, step: Step)
    requires TokenInv(s)
    ensures TokenInv(Next(s, step))
    ensures s.writes <= Next(s, step).writes
  {
    hide TokenInv;
    match step
    case Hear(w, answer) => HearKeepsTokens(s, w, answer);
    case Settle(w) => SettleKeepsTokens(s, w);
    case Connect(_, _, _, _) => ConnectKeepsTokens(s, step);
    case Tick(_) => KeptTokens(s, Next(s, step));
    case Call(_, _) => KeptTokens(s, Next(s, step));
    case Look(_, _) => KeptTokens(s, Next(s, step));
    case ClaimLease(_) => KeptTokens(s, Next(s, step));
    case Mark(_) => KeptTokens(s, Next(s, step));
    case Disconnect => KeptTokens(s, Next(s, step));
  }

  lemma {:induction false} TokenInvHolds(s: System, steps: seq<Step>)
    requires TokenInv(s)
    ensures TokenInv(After(s, steps))
    ensures s.writes <= After(s, steps).writes
    decreases |steps|
  {
    if steps != [] {
      TokenStep(s, steps[0]);
      TokenInvHolds(Next(s, steps[0]), steps[1..]);
    }
  }

  // ---------- the token a refresh sends ----------

  /** The seals of one grant are drawn together. */
  ghost predicate Paired(grant: Grant) { grant.access.nonce + 1 == grant.refresh.nonce }

  ghost predicate WrittenPair(writes: seq<Grant>, seen: Integration) {
    exists i :: 0 <= i < |writes| && writes[i].access == seen.access && writes[i].refresh == seen.refresh
  }

  /** Whatever a worker has read was stored once, both tokens by one grant. */
  ghost predicate SeenInv(s: System) {
    && (forall i | 0 <= i < |s.writes| :: Paired(s.writes[i]))
    && (forall w | IsPersisting(s, w) :: Paired(s.workers[w].pc.task.grant))
    && (forall w | w in s.workers && s.workers[w].pc.Claiming? :: WrittenPair(s.writes, s.workers[w].pc.seen))
  }

  lemma StillWritten(a: seq<Grant>, b: seq<Grant>, seen: Integration)
    requires WrittenPair(a, seen) && a <= b
    ensures WrittenPair(b, seen)
  {
    var i :| 0 <= i < |a| && a[i].access == seen.access && a[i].refresh == seen.refresh;
    assert b[i] == a[i];
  }

  lemma PairsStep(s: System, step: Step)
    requires SeenInv(s)
    ensures forall i | 0 <= i < |Next(s, step).writes| :: Paired(Next(s, step).writes[i])
    ensures forall w | IsPersisting(Next(s, step), w) :: Paired(Next(s, step).workers[w].pc.task.grant)
  {
    hide WrittenPair;
    match step
    case Hear(w, answer) =>
    case Settle(w) =>
    case Connect(_, _, _, _) =>
    case Look(_, _) =>
    case ClaimLease(_) =>
    case _ =>
  }

  /** A worker that is about to claim has read the row now or earlier. */
  lemma ClaimingStep(s: System, step: Step, w: nat)
    requires w in Next(s, step).workers && Next(s, step).workers[w].pc.Claiming?
    ensures (w in s.workers && s.workers[w].pc == Next(s, step).workers[w].pc)
            || (s.row == Some(Next(s, step).workers[w].pc.seen))
  {
  }

  lemma SeenStep(s: System, step: Step)
    requires TokenInv(s) && SeenInv(s)
    ensures SeenInv(Next(s, step))
  {
    TokenStep(s, step);
    PairsStep(s, step);
    LatestIsWritten(s);
    var t := Next(s, step);
    hide TokenInv, WrittenPair, Next;
    forall w | w in t.workers && t.workers[w].pc.Claiming? ensures WrittenPair(t.writes, t.workers[w].pc.seen) {
      ClaimingStep(s, step, w);
      StillWritten(s.writes, t.writes, t.workers[w].pc.seen);
    }
  }

  lemma LatestIsWritten(s: System)
    requires TokenInv(s)
    ensures s.row.Some? ==> WrittenPair(s.writes, s.row.value)
  {
  }

  lemma {:induction false} SeenInvHolds(s: System, steps: seq<Step>)
    requires TokenInv(s) && SeenInv(s)
    ensures TokenInv(After(s, steps)) && SeenInv(After(s, steps))
    decreases |steps|
  {
    if steps != [] {
      TokenStep(s, steps[0]);
      SeenStep(s, steps[0]);
      SeenInvHolds(Next(s, steps[0]), steps[1..]);
    }
  }

  /** Both rows hold pairs that were stored: their access tokens tell whether the pairs are one. */
  lemma OnePairIff(writes: seq<Grant>, nextId: nat, a: Integration, b: Integration)
    requires SealedOnce(writes, nextId) && forall i | 0 <= i < |writes| :: Paired(writes[i])
    requires WrittenPair(writes, a) && WrittenPair(writes, b)
    ensures a.refresh == b.refresh <==> a.access == b.access
  {
    var i :| 0 <= i < |writes| && writes[i].access == a.access && writes[i].refresh == a.refresh;
    var j :| 0 <= j < |writes| && writes[j].access == b.access && writes[j].refresh == b.refresh;
    assert Paired(writes[i]) && Paired(writes[j]);
  }

  /** The refresh token a worker sends is the one it read before it claimed the lease. When its
      claim succeeds, after whatever happened in between, that token is the stored one if and
      only if the access token of the row it has claimed is the one it read: a comparison the
      claim itself could make. */
  lemma {:induction false} SentTokenIsStoredIff(steps: seq<Step>, w: nat)
    requires var s := After(START, steps);
             w in s.workers && s.workers[w].pc.Claiming? && Claimable(s.row, s.workers[w].pc.at)
    ensures var s := After(START, steps);
            var pc := Next(s, ClaimLease(w)).workers[w].pc;
            && pc.Working? && pc.seen == s.workers[w].pc.seen
            && (pc.claimed.refresh == pc.seen.refresh <==> pc.claimed.access == pc.seen.access)
  {
    SeenInvHolds(START, steps);
    var s := After(START, steps);
    LatestIsWritten(s);
    OnePairIff(s.writes, s.nextId, s.row.value, s.workers[w].pc.seen);
  }

  /** In terms of the run: exactly when no tokens were stored between the look and the claim. */
  lemma {:induction false} SeenTokenIsStoredIff(s: System, w: nat, opens: bool, steps: seq<Step>)
    requires TokenInv(s) && w in s.workers && s.workers[w].pc.Reading?
    requires var looked := Next(s, Look(w, opens));
             && looked.workers[w].pc.Claiming? && w in After(looked, steps).workers
             && After(looked, steps).workers[w].pc == looked.workers[w].pc
             && Claimable(After(looked, steps).row, looked.workers[w].pc.at)
    ensures var looked := Next(s, Look(w, opens));
            var later := After(looked, steps);
            var pc := Next(later, ClaimLease(w)).workers[w].pc;
            pc.Working? && (pc.claimed.refresh == pc.seen.refresh <==> later.writes == looked.writes)
  {
    var looked := Next(s, Look(w, opens));
    TokenStep(s, Look(w, opens));
    TokenInvHolds(looked, steps);
    var later := After(looked, steps);
    if later.writes != looked.writes {
      assert later.writes[|looked.writes| - 1] == looked.writes[|looked.writes| - 1];
      assert |later.writes| > |looked.writes|;
    }
  }

  lemma {:induction false} AfterAppend(s: System, xs: seq<Step>, ys: seq<Step>)
    ensures After(s, xs + ys) == After(After(s, xs), ys)
    decreases |xs|
  {
    if xs == [] {
      assert xs + ys == ys;
    } else {
      assert (xs + ys)[1..] == xs[1..] + ys;
      AfterAppend(Next(s, xs[0]), xs[1..], ys);
    }
  }

  lemma AfterThree(s: System, a: Step, b: Step, c: Step)
    ensures After(s, [a, b, c]) == Next(Next(Next(s, a), b), c)
  {
    hide Next;
    assert [a, b, c][1..] == [b, c] && [b, c][1..] == [c] && [c][1..] == [];
    assert After(Next(Next(s, a), b), [c]) == Next(Next(Next(s, a), b), c);
    assert After(Next(s, a), [b, c]) == After(Next(Next(s, a), b), [c]);
  }

  /** Both workers have read the row; worker 0 has claimed it, worker 1 is about to. */
  ghost predicate BothRead(s: System) {
    && s.nextId == 3 && Holds(s, 0, 2) && s.workers[0].pc.task.Refresh? && HasLease(s.row, 2)
    && s.row.value.standing.Active?
    && 1 in s.workers && s.workers[1].pc.Claiming? && s.workers[1].pc.seen.refresh == Sealed("r", 1)
  }

  lemma BothCanRead()
    ensures exists steps :: BothRead(After(START, steps))
  {
    var connect := [Connect("a", "r", 0, REQUIRED_SCOPES), Call(0, false), Call(1, false)];
    var read := [Look(0, true), Look(1, true), ClaimLease(0)];
    AfterThree(START, connect[0], connect[1], connect[2]);
    var s := After(START, connect);
    AfterThree(s, read[0], read[1], read[2]);
    AfterAppend(START, connect, read);
    assert BothRead(After(START, connect + read));
  }

  /** Two callers read the same expired row; the first refreshes and stores; the second then
      claims and refreshes with the token that is no longer stored. */
  lemma StaleRefreshHappens()
    ensures exists steps :: var s := After(START, steps);
              && Holds(s, 1, 5) && s.workers[1].pc.task.Refresh? && HasLease(s.row, 5)
              && s.workers[1].pc.seen.refresh != s.row.value.refresh
  {
    BothCanRead();
    var steps :| BothRead(After(START, steps));
    var store := [Hear(0, Granted("b", "q", 0, REQUIRED_SCOPES, true)), Settle(0), ClaimLease(1)];
    AfterThree(After(START, steps), store[0], store[1], store[2]);
    AfterAppend(START, steps, store);
    assert Holds(After(START, steps + store), 1, 5);
  }

  // ---------- forced calls ----------

  ghost predicate WrittenSince(s: System, access: Sealed, since: nat) {
    exists i :: since <= i < |s.writes| && s.writes[i].access == access
  }

  ghost predicate ForcedWorker(s: System, me: Worker) {
    me.force ==>
      && (me.baseline.Some? ==> 0 < me.firstRead <= |s.writes| && s.writes[me.firstRead - 1].access == me.baseline.value)
      && (me.pc.Claiming? || me.pc.Working? || (me.pc.Done? && me.pc.outcome.Token?) ==> me.baseline.Some?)
      && (me.pc.Done? && me.pc.outcome.Token? ==> WrittenSince(s, me.pc.outcome.access, me.firstRead))
  }

  ghost predicate ForcedInv(s: System) {
    TokenInv(s) && forall w | w in s.workers :: ForcedWorker(s, s.workers[w])
  }

  lemma IdleForcedWorker(s: System, t: System, me: Worker)
    requires ForcedWorker(s, me) && s.writes <= t.writes
    ensures ForcedWorker(t, me)
  {
    if me.force && me.pc.Done? && me.pc.outcome.Token? {
      var i :| me.firstRead <= i < |s.writes| && s.writes[i].access == me.pc.outcome.access;
      assert t.writes[i] == s.writes[i];
    }
  }

  lemma BusyForcedWorker(s: System, step: Step, w: nat)
    requires ForcedInv(s) && s.writes <= Next(s, step).writes
    requires w in Next(s, step).workers && (w !in s.workers || Next(s, step).workers[w] != s.workers[w])
    ensures ForcedWorker(Next(s, step), Next(s, step).workers[w])
  {
    var t := Next(s, step);
    var me := t.workers[w];
    if me.force && me.pc.Done? && me.pc.outcome.Token? {
      assert t.writes[|t.writes| - 1].access == me.pc.outcome.access;
    }
  }

  lemma ForcedStep(s: System, step: Step)
    requires ForcedInv(s)
    ensures ForcedInv(Next(s, step))
  {
    TokenStep(s, step);
    var t := Next(s, step);
    hide Next, TokenInv, ForcedWorker;
    forall w | w in t.workers ensures ForcedWorker(t, t.workers[w]) {
      if w in s.workers && s.workers[w] == t.workers[w] {
        IdleForcedWorker(s, t, t.workers[w]);
      } else {
        BusyForcedWorker(s, step, w);
      }
    }
  }

  /** A forced call that returns a token returns one that was stored after its first look at
      the row: its own grant, or another worker's or reconnect's newer token. */
  lemma {:induction false} ForcedCallReturnsNewToken(s: System, steps: seq<Step>, w: nat)
    requires ForcedInv(s)
    requires w in After(s, steps).workers
    ensures var me := After(s, steps).workers[w];
            me.force && me.pc.Done? && me.pc.outcome.Token? ==>
              me.baseline.Some? && WrittenSince(After(s, steps), me.pc.outcome.access, me.firstRead)
    decreases |steps|
  {
    if steps != [] {
      ForcedStep(s, steps[0]);
      ForcedCallReturnsNewToken(Next(s, steps[0]), steps[1..], w);
    }
  }

  /** A forced call looks once: what it saw first is never replaced. */
  lemma {:induction false} BaselineIsFirst(s: System, steps: seq<Step>, w: nat)
    requires w in s.workers && s.workers[w].baseline.Some?
    ensures w in After(s, steps).workers
    ensures After(s, steps).workers[w].baseline == s.workers[w].baseline
    ensures After(s, steps).workers[w].firstRead == s.workers[w].firstRead
    decreases |steps|
  {
    if steps != [] {
      BaselineIsFirst(Next(s, steps[0]), steps[1..], w);
    }
  }

  /** The invariants hold from the start. */
  lemma StartIsSafe()
    ensures LeaseInv(START) && ForcedInv(START)
  {
  }
}

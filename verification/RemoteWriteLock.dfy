/** Scan units write artifacts through one permit (MigrationWorkflow.ts,
    makeProjectionScanDependencies): begin the intent, write, settle the intent. */
module RemoteWriteLock {
  import opened Wrappers
  import opened MigrationRow
  import opened MigrationSpec
  import opened MigrationRuns

  /** `marked`: the begin that let this write through left the marker on the row. */
  datatype Writer = Idle | Beginning | Writing(marked: bool) | Settling(marked: bool)

  /** `strays` are the marked writes whose writer has given up or stopped and which may still
      reach the store; `givenUp`, which the attempt knows of itself, that there has been one. */
  datatype System = System(
    row: Option<Row>, permit: Option<string>, writers: map<string, Writer>, strays: set<string>, givenUp: bool)

  datatype Step =
    | Acquire(w: string)
    | Begin(w: string, now: Time, call: Call)
    | Written(w: string, ok: bool)
    | Settle(w: string, now: Time, call: Call)
    | Restart
    | Land(w: string)
    | Other(event: Event)

  function WriterOf(s: System, w: string): Writer {
    if w in s.writers then s.writers[w] else Idle
  }

  function Leave(s: System, w: string): System {
    s.(permit := None, writers := s.writers[w := Idle])
  }

  /** Everybody else settles this attempt's intent only through the permit. */
  ghost predicate Foreign(event: Event, fence: Fence) { event.op != SettleWrites(fence) }

  ghost function Next(s: System, fence: Fence, step: Step): System {
    match step
    case Acquire(w) =>
      if s.permit.None? && WriterOf(s, w).Idle?
      then s.(permit := Some(w), writers := s.writers[w := Beginning]) else s
    case Begin(w, now, call) =>
      if !WriterOf(s, w).Beginning? then s
      else if s.row.None? || call == Errored(false) then Leave(s, w)
      else if !call.Recorded? then Leave(s.(row := Some(BeginRemoteWrites(s.row.value, fence, now).0)), w)
      else
        var (row, accepted) := BeginRemoteWrites(s.row.value, fence, now);
        var t := s.(row := Some(row));
        if accepted then t.(writers := s.writers[w := Writing(row.checkpoint.remoteWrites.Some?)]) else Leave(t, w)
    case Written(w, ok) =>
      if !WriterOf(s, w).Writing? then s
      else if ok then s.(writers := s.writers[w := Settling(WriterOf(s, w).marked)])
      else if WriterOf(s, w).marked then Leave(s, w).(strays := s.strays + {w}, givenUp := true)
      else Leave(s, w)
    case Settle(w, now, call) =>
      if !WriterOf(s, w).Settling? then s
      else if s.row.None? || call == Errored(false) then Leave(s, w)
      else Leave(s.(row := Some(SettleRemoteWrites(s.row.value, fence, now).0)), w)
    case Restart =>
      var cut := set w | w in s.writers && s.writers[w].Writing? && s.writers[w].marked;
      s.(permit := None, writers := map[], strays := s.strays + cut, givenUp := s.givenUp || cut != {})
    case Land(w) => s.(strays := s.strays - {w})
    case Other(event) => if Foreign(event, fence) then s.(row := Apply(s.row, event)) else s
  }

  predicate Marked(w: Writer) { (w.Writing? || w.Settling?) && w.marked }

  ghost predicate MarkerPresent(s: System, fence: Fence) {
    && s.row.Some? && RowInv(s.row.value) && FenceHolds(s.row.value, fence)
    && s.row.value.checkpoint.remoteWrites == Some(WriteIntent(fence.executionId, fence.attempt))
  }

  ghost predicate LockInv(s: System, fence: Fence) {
    && Inv(s.row)
    && (forall w :: !WriterOf(s, w).Idle? ==> s.permit == Some(w))
    && (forall w :: Marked(WriterOf(s, w)) ==> MarkerPresent(s, fence))
  }

  ghost predicate MarkedRow(row: Row, fence: Fence) {
    RowInv(row) && FenceHolds(row, fence)
    && row.checkpoint.remoteWrites == Some(WriteIntent(fence.executionId, fence.attempt))
  }

  lemma BegunRow(row: Row, fence: Fence, now: Time)
    requires RowInv(row)
    ensures var (next, accepted) := BeginRemoteWrites(row, fence, now);
            && RowInv(next) && (MarkedRow(row, fence) ==> MarkedRow(next, fence))
            && (accepted && next.checkpoint.remoteWrites.Some? ==> MarkedRow(next, fence))
  {
  }

  lemma BeginKept(s: System, fence: Fence, w: string, now: Time, call: Call)
    requires LockInv(s, fence)
    ensures LockInv(Next(s, fence, Begin(w, now, call)), fence)
  {
    hide BeginRemoteWrites, SettleRemoteWrites, Apply, RowInv, FenceHolds;
    if s.row.Some? {
      BegunRow(s.row.value, fence, now);
    }
    assert forall v | v != w :: WriterOf(Next(s, fence, Begin(w, now, call)), v) == WriterOf(s, v);
  }

  lemma SettledRow(row: Row, fence: Fence, now: Time)
    requires RowInv(row)
    ensures RowInv(SettleRemoteWrites(row, fence, now).0)
  {
  }

  /** Only the writer with the permit settles, so no other write is marked. */
  lemma SettleKept(s: System, fence: Fence, w: string, now: Time, call: Call)
    requires LockInv(s, fence)
    ensures LockInv(Next(s, fence, Settle(w, now, call)), fence)
  {
    hide BeginRemoteWrites, SettleRemoteWrites, Apply, RowInv, FenceHolds;
    if s.row.Some? {
      SettledRow(s.row.value, fence, now);
    }
    assert forall v | v != w :: WriterOf(Next(s, fence, Settle(w, now, call)), v) == WriterOf(s, v);
  }

  lemma OtherKept(s: System, fence: Fence, event: Event)
    requires LockInv(s, fence)
    ensures LockInv(Next(s, fence, Other(event)), fence)
  {
    hide ApplyToRow;
    InvStep(s.row, event);
    if MarkerPresent(s, fence) && Foreign(event, fence) {
      MarkerStep(s.row.value, s.row, event);
    }
    assert forall w :: WriterOf(Next(s, fence, Other(event)), w) == WriterOf(s, w);
  }

  lemma LockKept(s: System, fence: Fence, step: Step)
    requires LockInv(s, fence)
    ensures LockInv(Next(s, fence, step), fence)
  {
    hide BeginRemoteWrites, SettleRemoteWrites, Apply;
    match step
    case Begin(w, now, call) => BeginKept(s, fence, w, now, call);
    case Settle(w, now, call) => SettleKept(s, fence, w, now, call);
    case Other(event) => OtherKept(s, fence, event);
    case Land(_) =>
      assert forall w :: WriterOf(Next(s, fence, step), w) == WriterOf(s, w);
    case Acquire(w) =>
      assert forall v | v != w :: WriterOf(Next(s, fence, step), v) == WriterOf(s, v);
    case Written(w, _) =>
      assert forall v | v != w :: WriterOf(Next(s, fence, step), v) == WriterOf(s, v);
    case Restart =>
  }

  ghost function Ran(s: System, fence: Fence, steps: seq<Step>): System
    decreases |steps|
  {
    if steps == [] then s else Ran(Next(s, fence, steps[0]), fence, steps[1..])
  }

  lemma {:induction false} LockRun(s: System, fence: Fence, steps: seq<Step>)
    requires LockInv(s, fence)
    ensures LockInv(Ran(s, fence, steps), fence)
    decreases |steps|
  {
    if steps != [] {
      LockKept(s, fence, steps[0]);
      LockRun(Next(s, fence, steps[0]), fence, steps[1..]);
    }
  }

  /** Over every interleaving of writers, failures, restarts and everybody else: while a writer
      that set the marker runs, the marker is on the row, and so the row can be neither
      rescanned nor claimed for cleanup. */
  lemma {:induction false} MarkedWriteRunsUnderMarker(s: System, fence: Fence, steps: seq<Step>, w: string)
    requires Inv(s.row) && s.permit.None? && s.writers == map[]
    requires Marked(WriterOf(Ran(s, fence, steps), w))
    ensures MarkerPresent(Ran(s, fence, steps), fence)
    ensures var row := Ran(s, fence, steps).row.value; !CanRescan(row) && !CanDiscard(row) && row.cleanupExecutionId.None?
  {
    assert LockInv(s, fence);
    LockRun(s, fence, steps);
  }

  // ---------- writes nobody waits for ----------

  /** While a write that was given up may still land, the marker is on the row. */
  ghost predicate Covered(s: System, fence: Fence) { s.strays != {} ==> MarkerPresent(s, fence) }

  /** A later writer of the attempt settles while an earlier write is still out. */
  predicate SettlesOverStray(s: System, step: Step) {
    step.Settle? && step.call != Errored(false) && WriterOf(s, step.w).Settling? && s.strays != {} && s.row.Some?
  }

  lemma CoveredStepIff(s: System, fence: Fence, step: Step)
    requires LockInv(s, fence) && Covered(s, fence)
    ensures Covered(Next(s, fence, step), fence) <==> !SettlesOverStray(s, step)
  {
    LockKept(s, fence, step);
    match step
    case Other(event) =>
      if MarkerPresent(s, fence) && Foreign(event, fence) {
        MarkerStep(s.row.value, s.row, event);
      }
    case Begin(_, _, _) =>
    case Settle(_, _, _) =>
    case Written(w, _) =>
    case Restart =>
      if Next(s, fence, step).strays != s.strays {
        var w :| w in s.writers && s.writers[w].Writing? && s.writers[w].marked;
        assert Marked(WriterOf(s, w));
      }
    case _ =>
  }

  ghost predicate AlwaysCovered(s: System, fence: Fence, steps: seq<Step>)
    decreases |steps|
  {
    Covered(s, fence) && (steps == [] || AlwaysCovered(Next(s, fence, steps[0]), fence, steps[1..]))
  }

  ghost predicate NeverSettlesOverStray(s: System, fence: Fence, steps: seq<Step>)
    decreases |steps|
  {
    steps == [] || (!SettlesOverStray(s, steps[0]) && NeverSettlesOverStray(Next(s, fence, steps[0]), fence, steps[1..]))
  }

  /** A failed or abandoned write keeps its marker for as long as it may land, through every
      interleaving, if and only if no later writer of the same attempt settles meanwhile: that
      settle takes away the one marker both of them share. */
  lemma {:induction false} StrayWritesCoveredIff(s: System, fence: Fence, steps: seq<Step>)
    requires LockInv(s, fence) && Covered(s, fence)
    ensures AlwaysCovered(s, fence, steps) <==> NeverSettlesOverStray(s, fence, steps)
    decreases |steps|
  {
    hide LockInv, Covered, SettlesOverStray, Next;
    if steps != [] {
      CoveredStepIff(s, fence, steps[0]);
      LockKept(s, fence, steps[0]);
      if Covered(Next(s, fence, steps[0]), fence) {
        StrayWritesCoveredIff(Next(s, fence, steps[0]), fence, steps[1..]);
      }
    }
  }

  /** The same in what the attempt knows of itself: it settles after it has given a write up. */
  predicate SettlesAfterGivingUp(s: System, step: Step) {
    step.Settle? && step.call != Errored(false) && WriterOf(s, step.w).Settling? && s.givenUp && s.row.Some?
  }

  ghost predicate NeverSettlesAfterGivingUp(s: System, fence: Fence, steps: seq<Step>)
    decreases |steps|
  {
    steps == [] || (!SettlesAfterGivingUp(s, steps[0])
                    && NeverSettlesAfterGivingUp(Next(s, fence, steps[0]), fence, steps[1..]))
  }

  lemma StraysAreGivenUp(s: System, fence: Fence, step: Step)
    requires s.strays != {} ==> s.givenUp
    ensures Next(s, fence, step).strays != {} ==> Next(s, fence, step).givenUp
    ensures !step.Land? && (s.givenUp ==> s.strays != {}) ==> (Next(s, fence, step).givenUp ==> Next(s, fence, step).strays != {})
  {
    match step
    case Written(w, ok) =>
      if !ok && Next(s, fence, step).strays != s.strays {
        assert w in Next(s, fence, step).strays;
      }
    case Restart =>
    case Land(_) =>
    case Acquire(_) =>
    case Begin(_, _, _) =>
    case Settle(_, _, _) =>
    case Other(_) =>
  }

  /** An attempt that never settles after giving a write up keeps every such write marked,
      whenever it lands; and as long as none has landed, only such an attempt does. */
  lemma {:induction false} GivingUpDecides(s: System, fence: Fence, steps: seq<Step>)
    requires LockInv(s, fence) && Covered(s, fence) && (s.strays != {} ==> s.givenUp)
    ensures NeverSettlesAfterGivingUp(s, fence, steps) ==> AlwaysCovered(s, fence, steps)
    ensures (s.givenUp ==> s.strays != {}) && (forall i | 0 <= i < |steps| :: !steps[i].Land?) ==>
              (AlwaysCovered(s, fence, steps) <==> NeverSettlesAfterGivingUp(s, fence, steps))
    decreases |steps|
  {
    hide LockInv, Covered, Next;
    if steps != [] {
      CoveredStepIff(s, fence, steps[0]);
      LockKept(s, fence, steps[0]);
      StraysAreGivenUp(s, fence, steps[0]);
      if Covered(Next(s, fence, steps[0]), fence) {
        GivingUpDecides(Next(s, fence, steps[0]), fence, steps[1..]);
      }
    }
  }

  /** It happens: one write fails, the next one succeeds and settles. */
  lemma LaterSettleForgetsStray(row: Row, fence: Fence, t: Time)
    requires RowInv(row) && FenceHolds(row, fence) && row.status == Scanning && row.cleanupExecutionId.None?
    ensures exists steps ::
              var s := Ran(System(Some(row), None, map[], {}, false), fence, steps);
              s.strays == {"a"} && s.row.Some? && s.row.value.checkpoint.remoteWrites.None?
  {
    hide Apply, Foreign;
    var s0 := System(Some(row), None, map[], {}, false);
    var steps := [Acquire("a"), Begin("a", t, Recorded), Written("a", false), Acquire("b"), Begin("b", t, Recorded),
                  Written("b", true), Settle("b", t, Recorded)];
    var s3 := Next(Next(Next(s0, fence, steps[0]), fence, steps[1]), fence, steps[2]);
    assert s3.strays == {"a"} && s3.permit.None? && WriterOf(s3, "b").Idle?;
    var s7 := Next(Next(Next(Next(s3, fence, steps[3]), fence, steps[4]), fence, steps[5]), fence, steps[6]);
    assert s7.strays == {"a"} && s7.row.value.checkpoint.remoteWrites.None?;
    RanSeven(s0, fence, steps);
  }

  lemma RanSeven(s: System, fence: Fence, steps: seq<Step>)
    requires |steps| == 7
    ensures Ran(s, fence, steps) ==
            Next(Next(Next(Next(Next(Next(Next(s, fence, steps[0]), fence, steps[1]), fence, steps[2]),
                                fence, steps[3]), fence, steps[4]), fence, steps[5]), fence, steps[6])
  {
    hide Next;
    assert steps[1..][1..] == steps[2..] && steps[2..][1..] == steps[3..] && steps[3..][1..] == steps[4..];
    assert steps[4..][1..] == steps[5..] && steps[5..][1..] == steps[6..] && steps[6..][1..] == [];
    var s1 := Next(s, fence, steps[0]);
    var s2 := Next(s1, fence, steps[1]);
    var s3 := Next(s2, fence, steps[2]);
    var s4 := Next(s3, fence, steps[3]);
    var s5 := Next(s4, fence, steps[4]);
    var s6 := Next(s5, fence, steps[5]);
    var s7 := Next(s6, fence, steps[6]);
    assert Ran(s6, fence, steps[6..]) == s7;
    assert Ran(s5, fence, steps[5..]) == s7;
    assert Ran(s4, fence, steps[4..]) == s7;
    assert Ran(s3, fence, steps[3..]) == s7;
    assert Ran(s2, fence, steps[2..]) == s7;
    assert Ran(s1, fence, steps[1..]) == s7;
  }

  // ---------- the permit ----------

  /** The permit is what keeps a running write marked: of two writers that both begin, the first
      to settle takes the marker away from the one still writing. */
  lemma WithoutPermitMarkerIsLost(row: Row, fence: Fence, t: Time)
    requires RowInv(row) && FenceHolds(row, fence) && row.status == Scanning && row.cleanupExecutionId.None?
    ensures var first := BeginRemoteWrites(row, fence, t);
            var second := BeginRemoteWrites(first.0, fence, t);
            && first.1 && second.1 && second.0.checkpoint.remoteWrites.Some?
            && SettleRemoteWrites(second.0, fence, t).0.checkpoint.remoteWrites.None?
  {
  }
}

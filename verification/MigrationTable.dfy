/** The table of migrations: what its keys promise, one event on one of its rows, and runs
    over the whole table, whose restriction to one row is a run of that row. */
module MigrationTable {
  import opened Wrappers
  import opened MigrationRow
  import opened MigrationSpec
  import opened MigrationRuns

  type Table = map<string, Row>

  /** Primary key and the unique index on initiator, organization and request. */
  ghost predicate ValidTable(table: Table) {
    && (forall id :: id in table ==> table[id].id == id)
    && (forall i, j | i in table && j in table && i != j ::
          !(table[i].owner == table[j].owner && table[i].requestId == table[j].requestId))
  }

  /** The keys hold, and every row meets the invariant of its runs. */
  ghost predicate Sound(table: Table) {
    ValidTable(table) && forall id :: id in table ==> RowInv(table[id])
  }

  function RowAt(table: Table, id: string): Option<Row> {
    if id in table then Some(table[id]) else None
  }

  predicate Requested(row: Row, input: CreateInput) {
    row.owner == input.owner && row.requestId == input.requestId
  }

  /** The addressed row takes one event of its runs; every other row stays. */
  ghost function Stepped(table: Table, id: string, e: Event): Table {
    match Apply(RowAt(table, id), e)
    case Some(row) => table[id := row]
    case None => table - {id}
  }

  /** What an operation other than the deletion does to the table: its event, on its row. */
  ghost predicate Takes(before: Table, after: Table, id: string, op: Op, now: Time) {
    after == if id in before then before[id := ApplyToRow(before[id], op, now)] else before
  }

  function Created(table: Table, input: CreateInput, now: Time): Table {
    if input.executionId !in table && forall id | id in table :: !Requested(table[id], input)
    then table[input.executionId := CreatedRow(input, now)] else table
  }

  lemma KeepsIdentity(row: Row, e: Event)
    ensures ApplyToRow(row, e.op, e.now).id == row.id && ApplyToRow(row, e.op, e.now).owner == row.owner
    ensures ApplyToRow(row, e.op, e.now).requestId == row.requestId
  {
    hide PageTotal;
    match e.op
    case BeginWrites(_) =>
    case SettleWrites(_) =>
    case AttachmentOutcome(_, _, _, _) =>
    case Rescan(_) =>
    case Mutate(_, _, _) =>
    case AdvanceRow(_, _) =>
    case Fail(_, _) =>
    case ScanFailure(_, _, _) =>
    case ImportFailure(_, _, _) =>
    case Resume(_, _) =>
    case Progress(_, _, _) =>
    case Scanned(_, _, _, _) =>
    case HideProject(_, _, _, _, _) =>
    case Published(_, _, _, _) =>
    case Interrupted(_) =>
    case Claim(_, _, _, _) =>
    case Release(_, _, _) =>
    case FinishPostSuccess(_, _) =>
    case FinishReset(_, _, _) =>
    case Delete(_, _) =>
  }

  lemma SteppedStaysSound(table: Table, id: string, e: Event)
    requires Sound(table)
    ensures Sound(Stepped(table, id, e))
  {
    if id in table {
      InvStep(Some(table[id]), e);
      KeepsIdentity(table[id], e);
    }
    hide ApplyToRow, RowInv, DeletesAfterCleanup;
  }

  lemma TakesIsStepped(before: Table, after: Table, id: string, op: Op, now: Time)
    requires Takes(before, after, id, op, now) && !op.Delete?
    ensures after == Stepped(before, id, Event(op, now))
  {
    hide ApplyToRow;
  }

  lemma TakingKeepsSound(before: Table, id: string, op: Op, now: Time)
    requires Sound(before) && !op.Delete?
    ensures forall after :: Takes(before, after, id, op, now) ==> Sound(after)
  {
    SteppedStaysSound(before, id, Event(op, now));
    forall after | Takes(before, after, id, op, now) ensures Sound(after) {
      TakesIsStepped(before, after, id, op, now);
    }
  }

  lemma SoundRow(table: Table, id: string)
    requires Sound(table)
    ensures id in table ==> table[id].id == id && RowInv(table[id])
  {
  }

  lemma CreatedStaysSound(table: Table, input: CreateInput, now: Time)
    requires Sound(table)
    ensures Sound(Created(table, input, now))
  {
  }

  // ---------- runs over the table ----------

  datatype Call = Create(input: CreateInput, now: Time) | On(id: string, event: Event)

  ghost function Next(table: Table, call: Call): Table {
    match call
    case Create(input, now) => Created(table, input, now)
    case On(id, event) => Stepped(table, id, event)
  }

  ghost function Ran(table: Table, calls: seq<Call>): Table
    decreases |calls|
  {
    if calls == [] then table else Ran(Next(table, calls[0]), calls[1..])
  }

  function EventsOn(calls: seq<Call>, id: string): seq<Event> {
    if calls == [] then []
    else (if calls[0].On? && calls[0].id == id then [calls[0].event] else []) + EventsOn(calls[1..], id)
  }

  /** Over every sequence of calls on a sound table, its keys and every row's invariant hold. */
  lemma {:induction false} TableStaysSound(table: Table, calls: seq<Call>)
    requires Sound(table)
    ensures Sound(Ran(table, calls))
    decreases |calls|
  {
    if calls != [] {
      match calls[0] {
        case Create(input, now) => CreatedStaysSound(table, input, now);
        case On(id, event) => SteppedStaysSound(table, id, event);
      }
      TableStaysSound(Next(table, calls[0]), calls[1..]);
    }
  }

  /** Calls on other rows do not matter: a row of the table goes through exactly the run of
      the calls that name it, as long as nothing creates its id anew. */
  lemma {:induction false} RowsRunAlone(table: Table, calls: seq<Call>, id: string)
    requires forall call | call in calls && call.Create? :: call.input.executionId != id
    ensures RowAt(Ran(table, calls), id) == After(RowAt(table, id), EventsOn(calls, id))
    decreases |calls|
  {
    hide ApplyToRow, DeletesAfterCleanup;
    if calls != [] {
      RowsRunAlone(Next(table, calls[0]), calls[1..], id);
      if calls[0].On? && calls[0].id == id {
        assert RowAt(Next(table, calls[0]), id) == Apply(RowAt(table, id), calls[0].event);
        assert ([calls[0].event] + EventsOn(calls[1..], id))[1..] == EventsOn(calls[1..], id);
      } else {
        assert RowAt(Next(table, calls[0]), id) == RowAt(table, id);
        assert EventsOn(calls, id) == EventsOn(calls[1..], id);
      }
    }
  }
}

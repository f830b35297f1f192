/** Who an Everhour time entry is attributed to (packages/integration-everhour,
    TimeTracking.ts): the direct write after a timer stops, the edits a webhook reports, and
    why it does not matter which comes first. Entry ids are the integers Everhour assigns. */
module TimeAttribution {
  import opened Wrappers

  type EntryId = int

  datatype Context = Context(
    link: string, ticketId: Option<string>, groupId: string, workTypeKey: string, everhourUserId: string, userId: string)

  datatype Origin = PP | Everhour

  datatype Attribution = Attribution(
    timeId: string, context: Context, seconds: int, date: string, origin: Origin, updatedAt: int)

  datatype Entry = Entry(id: EntryId, seconds: int)

  datatype Record = Record(
    id: string, userId: Option<string>, taskId: Option<string>, seconds: int, date: string, history: seq<Entry>)

  datatype Timer = Timer(taskId: string, context: Context)

  type Table = map<EntryId, Attribution>

  /** The entry with the largest id; of several with that id, the first. */
  function LatestEntry(history: seq<Entry>): (latest: Option<Entry>)
  {
    if history == [] then None
    else
      var last := history[|history| - 1];
      var before := LatestEntry(history[..|history| - 1]);
      if before.None? || last.id > before.value.id then Some(last) else before
  }

  lemma {:induction false} LatestIsFirstLargest(history: seq<Entry>)
    ensures LatestEntry(history).None? <==> history == []
    ensures LatestEntry(history).Some? ==>
              && LatestEntry(history).value in history
              && (forall e | e in history :: e.id <= LatestEntry(history).value.id)
              && Listed(history, LatestEntry(history).value.id) == Some(LatestEntry(history).value.seconds)
  {
    if history != [] {
      var front := history[..|history| - 1];
      assert history == front + [history[|history| - 1]];
      LatestIsFirstLargest(front);
      ListedAppend(front, history[|history| - 1], LatestEntry(history).value.id);
    }
  }

  /** The seconds of the first entry with an id. */
  function Listed(history: seq<Entry>, id: EntryId): (seconds: Option<int>)
    ensures seconds.Some? <==> exists e :: e in history && e.id == id
  {
    if history == [] then None
    else if history[0].id == id then Some(history[0].seconds)
    else Listed(history[1..], id)
  }

  lemma {:induction false} ListedAppend(front: seq<Entry>, e: Entry, id: EntryId)
    ensures Listed(front + [e], id) == if Listed(front, id).Some? then Listed(front, id)
                                       else if e.id == id then Some(e.seconds) else None
  {
    if front != [] {
      assert (front + [e])[1..] == front[1..] + [e];
      ListedAppend(front[1..], e, id);
    }
  }

  // ---------- the two writers ----------

  /** writeAttribution: insert the latest entry, or take over a row that came from Everhour. */
  function Write(table: Table, record: Record, context: Context, now: int): Table {
    match LatestEntry(record.history)
    case None => table
    case Some(entry) =>
      if entry.id !in table then
        table[entry.id := Attribution(record.id, context, entry.seconds, record.date, PP, now)]
      else if table[entry.id].origin.Everhour? then
        table[entry.id := table[entry.id].(context := context, origin := PP, updatedAt := now)]
      else table
  }

  function RowsOf(table: Table, timeId: string): set<EntryId> {
    set id | id in table && table[id].timeId == timeId
  }

  /** The row an unknown entry gets: the template's, without its ticket. */
  function EditRow(record: Record, template: Attribution, seconds: int, now: int): Attribution {
    Attribution(record.id, template.context.(ticketId := None), seconds, record.date, Everhour, now)
  }

  function Inserted(table: Table, history: seq<Entry>, record: Record, template: Attribution, now: int): Table
    decreases |history|
  {
    if history == [] then table
    else
      var e := history[0];
      Inserted(if e.id in table then table else table[e.id := EditRow(record, template, e.seconds, now)],
               history[1..], record, template, now)
  }

  /** recordEverhourEdits, with `template` the row of the record that the query lists first. */
  function Edit(table: Table, record: Record, template: EntryId, now: int): Table
    requires RowsOf(table, record.id) != {} ==> template in RowsOf(table, record.id)
  {
    if RowsOf(table, record.id) == {} then table
    else if record.seconds == 0 then table - RowsOf(table, record.id)
    else Inserted(table, record.history, record, table[template], now)
  }

  lemma {:induction false} InsertedAt(table: Table, history: seq<Entry>, record: Record, template: Attribution, now: int)
    ensures var t := Inserted(table, history, record, template, now);
            forall id :: if id in table then id in t && t[id] == table[id]
                         else if Listed(history, id).Some? then
                           id in t && t[id] == EditRow(record, template, Listed(history, id).value, now)
                         else id !in t
    decreases |history|
  {
    if history != [] {
      var e := history[0];
      InsertedAt(if e.id in table then table else table[e.id := EditRow(record, template, e.seconds, now)],
                 history[1..], record, template, now);
    }
  }

  /** `after` records the edits that the record reports, column by column. Without a row of the
      record nothing happens; a zeroed record loses exactly its rows; otherwise every row stays
      and each entry that had none gets one without a ticket, with the seconds its first
      occurrence lists and in the context of one known row of the record. */
  ghost predicate RecordsEdits(before: Table, after: Table, record: Record, now: int) {
    if forall id | id in before :: before[id].timeId != record.id then after == before
    else if record.seconds == 0 then
      && (forall id :: id in after <==> id in before && before[id].timeId != record.id)
      && (forall id | id in after :: after[id] == before[id])
    else
      && (forall id | id in before :: id in after && after[id] == before[id])
      && (forall e | e in record.history :: e.id in after)
      && exists known | known in before && before[known].timeId == record.id ::
           forall id | id in after && id !in before :: IsNewEntry(after[id], id, record, before[known].context, now)
  }

  ghost predicate IsNewEntry(row: Attribution, id: EntryId, record: Record, context: Context, now: int) {
    && row.timeId == record.id && row.date == record.date && row.origin == Everhour && row.updatedAt == now
    && row.context.ticketId == None
    && row.context.link == context.link && row.context.groupId == context.groupId
    && row.context.workTypeKey == context.workTypeKey
    && row.context.everhourUserId == context.everhourUserId && row.context.userId == context.userId
    && exists i | 0 <= i < |record.history| ::
         && record.history[i].id == id && record.history[i].seconds == row.seconds
         && forall j | 0 <= j < i :: record.history[j].id != id
  }

  lemma {:induction false} ListedFirst(history: seq<Entry>, id: EntryId) returns (i: nat)
    requires Listed(history, id).Some?
    ensures i < |history| && history[i] == Entry(id, Listed(history, id).value)
    ensures forall j | 0 <= j < i :: history[j].id != id
  {
    if history[0].id == id {
      return 0;
    }
    i := ListedFirst(history[1..], id);
    i := i + 1;
  }

  lemma EditRecords(table: Table, record: Record, template: EntryId, now: int)
    requires RowsOf(table, record.id) != {} ==> template in RowsOf(table, record.id)
    ensures RecordsEdits(table, Edit(table, record, template, now), record, now)
  {
    var t := Edit(table, record, template, now);
    if forall id | id in table :: table[id].timeId != record.id {
      assert RowsOf(table, record.id) == {};
    } else {
      var own :| own in table && table[own].timeId == record.id;
      assert own in RowsOf(table, record.id);
      if record.seconds != 0 {
        InsertedAt(table, record.history, record, table[template], now);
        forall e | e in record.history ensures e.id in t {
          assert Listed(record.history, e.id).Some?;
        }
        forall id | id in t && id !in table ensures IsNewEntry(t[id], id, record, table[template].context, now) {
          var i := ListedFirst(record.history, id);
        }
      }
    }
  }

  /** Afterwards the latest entry is the app's: a new one in this context, one that came from
      Everhour handed over to it with the seconds it had, one of the app's own left alone. No
      other entry is touched. */
  ghost predicate Attributes(before: Table, after: Table, record: Record, context: Context, now: int) {
    if LatestEntry(record.history).None? then after == before
    else
      var latest := LatestEntry(record.history).value;
      && after - {latest.id} == before - {latest.id}
      && latest.id in after && after[latest.id].origin.PP?
      && (if latest.id in before && before[latest.id].origin.PP? then after == before
          else && after[latest.id].context == context && after[latest.id].updatedAt == now
               && (if latest.id in before then
                     && after[latest.id].seconds == before[latest.id].seconds
                     && after[latest.id].timeId == before[latest.id].timeId
                     && after[latest.id].date == before[latest.id].date
                   else
                     && after[latest.id].seconds == latest.seconds && after[latest.id].timeId == record.id
                     && after[latest.id].date == record.date))
  }

  class TimeTracking {
    var table: Table
    var timers: map<string, Timer>

    constructor ()
      ensures table == map[] && timers == map[]
    {
      table := map[];
      timers := map[];
    }

    method WriteAttribution(record: Record, context: Context, now: int)
      modifies this`table
      ensures Attributes(old(table), table, record, context, now)
      ensures table == Write(old(table), record, context, now)
    {
      var latest := LatestEntry(record.history);
      if latest.None? {
        return;
      }
      var entry := latest.value;
      if entry.id !in table {
        table := table[entry.id := Attribution(record.id, context, entry.seconds, record.date, PP, now)];
      } else if table[entry.id].origin == Everhour {
        table := table[entry.id := table[entry.id].(context := context, origin := PP, updatedAt := now)];
      }
    }

    method RecordEverhourEdits(record: Record, now: int) returns (ghost template: EntryId)
      modifies this`table
      ensures RecordsEdits(old(table), table, record, now)
      ensures RowsOf(old(table), record.id) != {} ==> template in RowsOf(old(table), record.id)
      ensures table == Edit(old(table), record, template, now)
    {
      hide RecordsEdits;
      template := 0;
      var known := RowsOf(table, record.id);
      if first :| first in known {
        template := first;
        EditRecords(table, record, first, now);
        if record.seconds == 0 {
          table := table - known;
          return;
        }
        var row := table[first];
        var rest := record.history;
        while rest != []
          invariant known <= table.Keys
          invariant Inserted(table, rest, record, row, now) == Inserted(old(table), record.history, record, row, now)
          decreases |rest|
        {
          var e := rest[0];
          if e.id !in known && e.id !in table {
            table := table[e.id := EditRow(record, row, e.seconds, now)];
          }
          rest := rest[1..];
        }
      } else {
        assert forall id :: id !in known;
        assert known == {};
        EditRecords(table, record, template, now);
      }
    }

    /** A stopped timer of the same user and task claims the record; otherwise its edits are
        recorded. */
    method ApplyWebhookTimeEvent(record: Record, now: int)
      modifies this
      ensures var matched := record.userId.Some? && record.taskId.Some? && record.userId.value in old(timers)
                             && old(timers)[record.userId.value].taskId == record.taskId.value;
              if matched then
                Attributes(old(table), table, record, old(timers)[record.userId.value].context, now)
                && timers == old(timers) - {record.userId.value}
              else
                timers == old(timers) && RecordsEdits(old(table), table, record, now)
    {
      if record.userId.Some? && record.taskId.Some? && record.userId.value in timers
         && timers[record.userId.value].taskId == record.taskId.value {
        WriteAttribution(record, timers[record.userId.value].context, now);
        timers := timers - {record.userId.value};
        return;
      }
      ghost var template := RecordEverhourEdits(record, now);
    }
  }

  // ---------- never reassigned ----------

  datatype Step =
    | Written(record: Record, context: Context, now: int)
    | Edited(record: Record, template: EntryId, now: int)
    | EditedLate(record: Record, known: Table, template: EntryId, now: int)

  function Unknown(history: seq<Entry>, known: set<EntryId>): seq<Entry> {
    if history == [] then []
    else (if history[0].id in known then [] else [history[0]]) + Unknown(history[1..], known)
  }

  /** recordEverhourEdits when its rows were read earlier: `known` are the rows it has read. */
  function LateEdit(table: Table, record: Record, known: Table, template: EntryId, now: int): Table
    requires template in known
  {
    if record.seconds == 0 then table - RowsOf(table, record.id)
    else Inserted(table, Unknown(record.history, known.Keys), record, known[template], now)
  }

  /** The query may list any row of the record first; a template that is none of them stands
      for one. */
  function Next(table: Table, step: Step): Table {
    match step
    case Written(record, context, now) => Write(table, record, context, now)
    case Edited(record, template, now) =>
      if RowsOf(table, record.id) != {} && template !in RowsOf(table, record.id) then table
      else Edit(table, record, template, now)
    case EditedLate(record, known, template, now) =>
      if template in known then LateEdit(table, record, known, template, now) else table
  }

  function After(table: Table, steps: seq<Step>): Table
    decreases |steps|
  {
    if steps == [] then table else After(Next(table, steps[0]), steps[1..])
  }

  predicate Zeroes(step: Step, timeId: string) {
    !step.Written? && step.record.id == timeId && step.record.seconds == 0
  }

  lemma OwnRowStays(table: Table, step: Step, id: EntryId)
    requires id in table && table[id].origin.PP? && !Zeroes(step, table[id].timeId)
    ensures id in Next(table, step) && Next(table, step)[id] == table[id]
  {
    match step
    case Written(_, _, _) =>
    case Edited(record, template, now) =>
      if template in RowsOf(table, record.id) && record.seconds != 0 {
        InsertedAt(table, record.history, record, table[template], now);
      }
    case EditedLate(record, known, template, now) =>
      if template in known && record.seconds != 0 {
        InsertedAt(table, Unknown(record.history, known.Keys), record, known[template], now);
      }
  }

  /** An entry attributed by the app keeps its ticket, seconds and everything else until its
      record is zeroed, whatever is written and edited meanwhile, by edits whose rows were read
      at any earlier time as well. */
  lemma {:induction false} NeverReassigned(table: Table, steps: seq<Step>, id: EntryId)
    requires id in table && table[id].origin.PP?
    requires forall i | 0 <= i < |steps| ::
               steps[i].Written? || steps[i].record.id != table[id].timeId || steps[i].record.seconds != 0
    ensures id in After(table, steps) && After(table, steps)[id] == table[id]
    decreases |steps|
  {
    if steps != [] {
      OwnRowStays(table, steps[0], id);
      NeverReassigned(Next(table, steps[0]), steps[1..], id);
    }
  }

  // ---------- edits that come late ----------

  lemma {:induction false} UnknownListed(history: seq<Entry>, known: set<EntryId>, id: EntryId)
    ensures Listed(Unknown(history, known), id) == if id in known then None else Listed(history, id)
  {
    if history != [] {
      UnknownListed(history[1..], known, id);
      if history[0].id !in known {
        assert Unknown(history, known) == [history[0]] + Unknown(history[1..], known);
      } else {
        assert Unknown(history, known) == Unknown(history[1..], known);
      }
    }
  }

  /** Edits whose rows are still the record's do what they would do in one step. */
  lemma CurrentEditIsAtomic(table: Table, record: Record, known: Table, template: EntryId, now: int)
    requires template in known && known == map id | id in RowsOf(table, record.id) :: table[id]
    ensures LateEdit(table, record, known, template, now) == Edit(table, record, template, now)
  {
    if record.seconds != 0 {
      InsertedAt(table, Unknown(record.history, known.Keys), record, known[template], now);
      InsertedAt(table, record.history, record, table[template], now);
      forall id ensures Listed(Unknown(record.history, known.Keys), id)
                        == if id in known then None else Listed(record.history, id) {
        UnknownListed(record.history, known.Keys, id);
      }
      var late, whole := LateEdit(table, record, known, template, now), Edit(table, record, template, now);
      assert template in RowsOf(table, record.id) && known[template] == table[template];
      forall id ensures (id in late <==> id in whole) && (id in late ==> late[id] == whole[id]) {
        assert id in known ==> id in table;
      }
      assert late == whole;
    }
  }

  /** Edits whose rows were read earlier: a zeroed record loses the rows it has now; otherwise
      every row stays, and every entry that was not read gets one unless it has one by now. */
  lemma LateEditAt(table: Table, record: Record, known: Table, template: EntryId, now: int)
    requires template in known
    ensures var t := LateEdit(table, record, known, template, now);
            if record.seconds == 0 then
              forall id :: (id in t <==> id in table && table[id].timeId != record.id) && (id in t ==> t[id] == table[id])
            else
              && (forall id | id in table :: id in t && t[id] == table[id])
              && (forall id | id !in table :: id in t <==> id !in known && exists e :: e in record.history && e.id == id)
              && forall id | id in t && id !in table :: IsNewEntry(t[id], id, record, known[template].context, now)
  {
    var t := LateEdit(table, record, known, template, now);
    if record.seconds != 0 {
      InsertedAt(table, Unknown(record.history, known.Keys), record, known[template], now);
      forall id | id !in table
        ensures id in t <==> id !in known && exists e :: e in record.history && e.id == id
        ensures id in t ==> IsNewEntry(t[id], id, record, known[template].context, now)
      {
        UnknownListed(record.history, known.Keys, id);
        if id in t {
          var i := ListedFirst(record.history, id);
        }
      }
    }
  }

  /** Every step of a run writes or edits, unless its template is no row of its record. */
  lemma StepRecords(table: Table, step: Step)
    ensures step.Written? ==> Attributes(table, Next(table, step), step.record, step.context, step.now)
    ensures step.Edited? && ((exists id :: id in table && table[id].timeId == step.record.id)
                             ==> step.template in table && table[step.template].timeId == step.record.id) ==>
              RecordsEdits(table, Next(table, step), step.record, step.now)
    ensures step.EditedLate? && step.template in step.known ==>
              Next(table, step) == LateEdit(table, step.record, step.known, step.template, step.now)
  {
    match step
    case Written(_, _, _) =>
    case Edited(record, template, now) =>
      if (exists id :: id in table && table[id].timeId == record.id) ==> template in table && table[template].timeId == record.id {
        assert RowsOf(table, record.id) != {} ==> template in RowsOf(table, record.id) by {
          if id :| id in RowsOf(table, record.id) {
            assert id in table && table[id].timeId == record.id;
          }
        }
        EditRecords(table, record, template, now);
      }
    case EditedLate(_, _, _, _) =>
  }

  /** The record has been zeroed since its rows were read: the late edits bring it back exactly
      when its history has an entry that was not among them and belongs to nobody. */
  lemma LateEditRevivesIff(table: Table, record: Record, known: Table, template: EntryId, now: int)
    requires template in known && record.seconds != 0 && RowsOf(table, record.id) == {}
    ensures RowsOf(LateEdit(table, record, known, template, now), record.id) != {} <==>
              exists e :: e in record.history && e.id !in known && e.id !in table
  {
    InsertedAt(table, Unknown(record.history, known.Keys), record, known[template], now);
    var t := LateEdit(table, record, known, template, now);
    forall id | id in t && id !in table ensures exists e :: e in record.history && e.id == id && id !in known {
      UnknownListed(record.history, known.Keys, id);
    }
    if e :| e in record.history && e.id !in known && e.id !in table {
      UnknownListed(record.history, known.Keys, e.id);
      assert Listed(record.history, e.id).Some?;
      assert e.id in RowsOf(t, record.id);
    } else {
      forall id ensures id !in RowsOf(t, record.id) {
        assert id in table ==> t[id] == table[id] && id !in RowsOf(table, record.id);
      }
    }
  }

  // ---------- order ----------

  function Seconds(table: Table): map<EntryId, int> { map id | id in table :: table[id].seconds }

  /** The two orders, each with the template its own query lists first. */
  ghost predicate Orders(table: Table, record: Record, context: Context, now: int, later: int,
                         writeFirst: Table, editFirst: Table) {
    && (exists x ::
          var w := Write(table, record, context, now);
          (RowsOf(w, record.id) != {} ==> x in RowsOf(w, record.id)) && writeFirst == Edit(w, record, x, later))
    && (exists y ::
          (RowsOf(table, record.id) != {} ==> y in RowsOf(table, record.id))
          && editFirst == Write(Edit(table, record, y, now), record, context, later))
  }

  /** Every entry of the history that is not yet in the table. */
  ghost predicate AllKnown(table: Table, history: seq<Entry>, but: EntryId) {
    forall e | e in history && e.id != but :: e.id in table
  }

  lemma WriteFirst(table: Table, record: Record, context: Context, now: int, later: int, x: EntryId)
    requires record.seconds != 0 && record.history != []
    requires var w := Write(table, record, context, now); RowsOf(w, record.id) != {} ==> x in RowsOf(w, record.id)
    ensures var l := LatestEntry(record.history).value;
            var w := Write(table, record, context, now);
            var t := Edit(w, record, x, later);
            && l.id in w && l.id in t && t[l.id] == w[l.id]
            && forall id | id != l.id ::
                 && (id in table ==> id in t && t[id].seconds == table[id].seconds)
                 && (id !in table ==>
                       (id in t <==> RowsOf(w, record.id) != {} && Listed(record.history, id).Some?)
                       && (id in t ==> t[id].seconds == Listed(record.history, id).value))
  {
    LatestIsFirstLargest(record.history);
    var w := Write(table, record, context, now);
    if RowsOf(w, record.id) != {} {
      InsertedAt(w, record.history, record, w[x], later);
    }
  }

  lemma EditFirst(table: Table, record: Record, context: Context, now: int, later: int, y: EntryId)
    requires record.seconds != 0 && record.history != []
    requires RowsOf(table, record.id) != {} ==> y in RowsOf(table, record.id)
    ensures var l := LatestEntry(record.history).value;
            var w := Write(table, record, context, now);
            var t := Write(Edit(table, record, y, now), record, context, later);
            && l.id in w && l.id in t && t[l.id].(updatedAt := 0) == w[l.id].(updatedAt := 0)
            && forall id | id != l.id ::
                 && (id in table ==> id in t && t[id].seconds == table[id].seconds)
                 && (id !in table ==>
                       (id in t <==> RowsOf(table, record.id) != {} && Listed(record.history, id).Some?)
                       && (id in t ==> t[id].seconds == Listed(record.history, id).value))
  {
    LatestIsFirstLargest(record.history);
    if RowsOf(table, record.id) != {} {
      InsertedAt(table, record.history, record, table[y], now);
    }
  }

  /** For a record that is not zeroed, the webhook and the direct write may come in either
      order: the row of the latest entry is the same but for its update time, and so are the
      seconds of every entry. */
  lemma EitherOrder(table: Table, record: Record, context: Context, now: int, later: int, a: Table, b: Table)
    requires Orders(table, record, context, now, later, a, b)
    requires record.seconds != 0 && record.history != [] && RowsOf(table, record.id) != {}
    ensures var l := LatestEntry(record.history).value.id;
            && l in a && l in b && a[l].(updatedAt := 0) == b[l].(updatedAt := 0)
            && Seconds(a) == Seconds(b)
  {
    OrdersAgreeIff(table, record, context, now, later, a, b);
  }

  /** Without any row of the record, the order matters exactly when the record brings entries
      besides its latest and the latest is new: then only the write-first order adds them. */
  lemma OrdersAgreeIff(table: Table, record: Record, context: Context, now: int, later: int, a: Table, b: Table)
    requires Orders(table, record, context, now, later, a, b)
    requires record.seconds != 0 && record.history != []
    ensures var l := LatestEntry(record.history).value.id;
            && l in a && l in b && a[l].(updatedAt := 0) == b[l].(updatedAt := 0)
            && (Seconds(a) == Seconds(b) <==>
                  RowsOf(table, record.id) != {} || l in table || AllKnown(table, record.history, l))
  {
    var l := LatestEntry(record.history).value.id;
    var w := Write(table, record, context, now);
    var x :| (RowsOf(w, record.id) != {} ==> x in RowsOf(w, record.id)) && a == Edit(w, record, x, later);
    var y :| (RowsOf(table, record.id) != {} ==> y in RowsOf(table, record.id))
             && b == Write(Edit(table, record, y, now), record, context, later);
    WriteFirst(table, record, context, now, later, x);
    EditFirst(table, record, context, now, later, y);
    assert RowsOf(w, record.id) != {} <==> RowsOf(table, record.id) != {} || l !in table by {
      RowsAfterWrite(table, record, context, now);
    }
    hide Write, Edit, Listed, LatestEntry, RowsOf;
    if RowsOf(table, record.id) != {} || l in table || AllKnown(table, record.history, l) {
      forall id ensures id in a <==> id in b {
        if id != l && id !in table && Listed(record.history, id).Some? {
          var e :| e in record.history && e.id == id;
        }
      }
      forall id | id in a ensures a[id].seconds == b[id].seconds {
        if id == l {
          assert a[l].(updatedAt := 0).seconds == b[l].(updatedAt := 0).seconds;
        }
      }
      assert Seconds(a) == Seconds(b);
    } else {
      var e :| e in record.history && e.id != l && e.id !in table;
      assert Listed(record.history, e.id).Some?;
      assert e.id in Seconds(a) && e.id !in Seconds(b);
    }
  }

  lemma RowsAfterWrite(table: Table, record: Record, context: Context, now: int)
    requires record.history != []
    ensures var l := LatestEntry(record.history).value.id;
            RowsOf(Write(table, record, context, now), record.id) != {} <==>
              RowsOf(table, record.id) != {} || l !in table
  {
    LatestIsFirstLargest(record.history);
    var l := LatestEntry(record.history).value.id;
    var w := Write(table, record, context, now);
    if l !in table {
      assert l in RowsOf(w, record.id);
    } else {
      assert forall id | id in table :: id in w && w[id].timeId == table[id].timeId;
      assert RowsOf(w, record.id) == RowsOf(table, record.id);
    }
  }

  // ---------- conservation ----------

  /** Every row of the record is an entry of its history with that entry's seconds, and no
      entry of the history belongs to another record. */
  ghost predicate FromHistory(table: Table, record: Record) {
    && (forall id | id in table && table[id].timeId == record.id :: Listed(record.history, id) == Some(table[id].seconds))
    && (forall e | e in record.history && e.id in table :: table[e.id].timeId == record.id)
  }

  /** The record's rows are its history, entry by entry. */
  ghost predicate IsHistory(table: Table, record: Record) {
    forall id :: if Listed(record.history, id).Some?
                 then id in table && table[id].timeId == record.id && table[id].seconds == Listed(record.history, id).value
                 else id !in RowsOf(table, record.id)
  }

  /** After the edits, the record's rows are exactly its history: the same entries, the same
      seconds, none twice and none missing. */
  lemma EditsMatchHistory(table: Table, record: Record, template: EntryId, now: int)
    requires record.seconds != 0 && template in RowsOf(table, record.id) && FromHistory(table, record)
    ensures IsHistory(Edit(table, record, template, now), record)
  {
    InsertedAt(table, record.history, record, table[template], now);
  }

  lemma WriteKeepsHistory(table: Table, record: Record, context: Context, now: int)
    requires record.history != []
    ensures FromHistory(table, record) ==> FromHistory(Write(table, record, context, now), record)
    ensures IsHistory(table, record) ==> IsHistory(Write(table, record, context, now), record)
  {
    LatestIsFirstLargest(record.history);
    hide LatestEntry, Listed;
  }

  /** Webhook and direct write, in either order, leave exactly the history of a record whose
      earlier rows came from it. */
  lemma EitherOrderGivesHistory(table: Table, record: Record, context: Context, now: int, later: int, a: Table, b: Table)
    requires Orders(table, record, context, now, later, a, b)
    requires record.seconds != 0 && record.history != [] && RowsOf(table, record.id) != {} && FromHistory(table, record)
    ensures IsHistory(a, record) && IsHistory(b, record)
  {
    var w := Write(table, record, context, now);
    var x :| (RowsOf(w, record.id) != {} ==> x in RowsOf(w, record.id)) && a == Edit(w, record, x, later);
    var y :| (RowsOf(table, record.id) != {} ==> y in RowsOf(table, record.id))
             && b == Write(Edit(table, record, y, now), record, context, later);
    RowsAfterWrite(table, record, context, now);
    WriteKeepsHistory(table, record, context, now);
    EditsMatchHistory(w, record, x, later);
    EditsMatchHistory(table, record, y, now);
    WriteKeepsHistory(Edit(table, record, y, now), record, context, later);
  }

  const TWO_ENTRIES := Record("t", None, None, 30, "2024-01-01", [Entry(1, 10), Entry(2, 20)])

  lemma TwoEntriesLatest()
    ensures LatestEntry(TWO_ENTRIES.history) == Some(Entry(2, 20))
  {
    LatestIsFirstLargest(TWO_ENTRIES.history);
    assert TWO_ENTRIES.history[1] == Entry(2, 20);
  }

  /** A record that arrives with two new entries: written first, the webhook then adds the
      older one; reported first, it is never added. */
  lemma WebhookBeforeFirstWrite(context: Context, now: int, later: int)
    ensures exists a, b :: Orders(map[], TWO_ENTRIES, context, now, later, a, b) && Seconds(a) != Seconds(b)
  {
    TwoEntriesLatest();
    var empty: Table := map[];
    var w := Write(empty, TWO_ENTRIES, context, now);
    assert 2 in RowsOf(w, TWO_ENTRIES.id) && RowsOf(empty, TWO_ENTRIES.id) == {};
    var a, b := Edit(w, TWO_ENTRIES, 2, later), Write(Edit(empty, TWO_ENTRIES, 0, now), TWO_ENTRIES, context, later);
    assert Orders(empty, TWO_ENTRIES, context, now, later, a, b);
    assert !AllKnown(empty, TWO_ENTRIES.history, 2) by {
      assert TWO_ENTRIES.history[0] == Entry(1, 10);
    }
    OrdersAgreeIff(empty, TWO_ENTRIES, context, now, later, a, b);
  }

  /** A row of the record was read, the record is zeroed, and the edits that come late bring the
      other entry back. */
  lemma ZeroedRecordComesBack(context: Context, now: int)
    ensures var row := Attribution("t", context, 10, "2024-01-01", PP, 0);
            var zeroed := Edit(map[1 := row], TWO_ENTRIES.(seconds := 0), 1, now);
            RowsOf(zeroed, "t") == {} && RowsOf(LateEdit(zeroed, TWO_ENTRIES, map[1 := row], 1, now), "t") != {}
  {
    var row := Attribution("t", context, 10, "2024-01-01", PP, 0);
    var table: Table := map[1 := row];
    assert 1 in RowsOf(table, "t");
    ZeroedRecordIsGone(table, TWO_ENTRIES.(seconds := 0), 1, now);
    var zeroed := Edit(table, TWO_ENTRIES.(seconds := 0), 1, now);
    assert TWO_ENTRIES.history[1] == Entry(2, 20) && 2 !in table && 2 !in zeroed;
    LateEditRevivesIff(zeroed, TWO_ENTRIES, table, 1, now);
  }

  /** A zeroed record leaves nothing behind and touches no other record. */
  lemma ZeroedRecordIsGone(table: Table, record: Record, template: EntryId, now: int)
    requires record.seconds == 0 && (RowsOf(table, record.id) != {} ==> template in RowsOf(table, record.id))
    ensures var t := Edit(table, record, template, now);
            && RowsOf(t, record.id) == {}
            && forall id | id in table && table[id].timeId != record.id :: id in t && t[id] == table[id]
  {
  }

  // ---------- the summary ----------

  datatype TimeRow = TimeRow(everhourUserId: string, seconds: int)

  function Total(rows: seq<TimeRow>): int {
    if rows == [] then 0 else rows[0].seconds + Total(rows[1..])
  }

  function RowsOfUser(rows: seq<TimeRow>, user: string): seq<TimeRow> {
    if rows == [] then [] else (if rows[0].everhourUserId == user then [rows[0]] else []) + RowsOfUser(rows[1..], user)
  }

  lemma TotalOfUser(rows: seq<TimeRow>, user: string)
    requires rows != []
    ensures Total(RowsOfUser(rows, user))
         == (if rows[0].everhourUserId == user then rows[0].seconds else 0) + Total(RowsOfUser(rows[1..], user))
  {
    var rest := RowsOfUser(rows[1..], user);
    assert [] + rest == rest && ([rows[0]] + rest)[1..] == rest;
  }

  method SummariseAttribution(rows: seq<TimeRow>, user: Option<string>) returns (total: int, mine: int)
    ensures total == Total(rows)
    ensures mine == if user.Some? then Total(RowsOfUser(rows, user.value)) else 0
  {
    total, mine := 0, 0;
    var rest := rows;
    while rest != []
      invariant total + Total(rest) == Total(rows)
      invariant mine + (if user.Some? then Total(RowsOfUser(rest, user.value)) else 0)
             == if user.Some? then Total(RowsOfUser(rows, user.value)) else 0
      decreases |rest|
    {
      var row := rest[0];
      total := total + row.seconds;
      if user.Some? {
        TotalOfUser(rest, user.value);
      }
      if user.Some? && row.everhourUserId == user.value {
        mine := mine + row.seconds;
      }
      rest := rest[1..];
    }
  }
}

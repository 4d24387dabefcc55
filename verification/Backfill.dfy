/** The backfill of the two canonical tables from the legacy table: a loop over pages by offset, the
    routing counters, and agreement with live ingest. */
module Backfill {
  import opened Collections
  import opened Documents
  import opened Rows
  import opened Decimals
  import Upsert

  const BATCH_SIZE := 200

  /** A legacy row, as an event; `receivedAt` stands for created_at or the timestamp. */
  datatype Legacy = Legacy(event: Fields, receivedAt: int)

  /** The event as it is written: an id made up when there is none, and defaults for the type, the
      schema version and the severity. */
  function Normal(f: Fields, number: nat): Fields {
    f[EventId := Or(Get(f, EventId), Str("<unknown-" + Decimal(number) + ">"))]
    [EventType := Or(Get(f, EventType), Str(""))]
    [SchemaVersion := Or(Get(f, SchemaVersion), Num(1))]
    [Severity := Or(Get(f, Severity), Str("info"))]
    [Trace := Obj(AsObject(Get(f, Trace)))]
    [Payload := Obj(AsObject(Get(f, Payload)))]
  }

  /** How the two inserts and the commit of one row go. */
  datatype Fault = NoFault | BusinessFails | AiFails | CommitFails

  /** `work` is what the open connection sees, `saved` what has been committed. */
  datatype Connection = Connection(work: Tables, saved: Tables)

  /** A failed insert leaves the one before it pending, and the next commit saves it. */
  function WriteRow(c: Connection, reg: Registry, f: Fields, receivedAt: int, fault: Fault): Connection {
    var both := InsertCanonical(c.work, reg, f, receivedAt);
    var routes := Routes(reg, Get(f, EventType));
    if !routes.business && !routes.ai then c
    else if routes.business && fault == BusinessFails then c
    else if routes.ai && fault == AiFails then c.(work := c.work.(business := both.business))
    else if fault == CommitFails then c.(work := both)
    else Connection(both, both)
  }

  datatype Tally = Tally(business: nat, ai: nat, both: nat, neither: nat)

  function Counted(t: Tally, routes: Routing): Tally {
    if routes.business && routes.ai then t.(both := t.both + 1)
    else if routes.business then t.(business := t.business + 1)
    else if routes.ai then t.(ai := t.ai + 1)
    else t.(neither := t.neither + 1)
  }

  // ---------------------------------------------------------------- the offset loop

  /** The number that goes into the label of row i: the offset of its page plus the rows processed
      before it. */
  function Number(i: nat): nat { i / BATCH_SIZE * BATCH_SIZE + i }

  /** Rows 0 to k - 1 handled in order. */
  function Handled<S>(start: S, handle: (S, nat, nat) -> S, k: nat): S {
    if k == 0 then start else handle(Handled(start, handle, k - 1), k - 1, Number(k - 1))
  }

  lemma NumberIs(page: nat, i: nat)
    requires i < BATCH_SIZE
    ensures Number(BATCH_SIZE * page + i) == BATCH_SIZE * page + (BATCH_SIZE * page + i)
  {
    assert (BATCH_SIZE * page + i) / BATCH_SIZE == page;
  }

  /** `SELECT ... ORDER BY rowid LIMIT ? OFFSET ?` on a table of `total` rows nobody changes: how many
      rows the page has. */
  function PageSize(total: nat, offset: nat): nat {
    if offset >= total then 0 else if offset + BATCH_SIZE <= total then BATCH_SIZE else total - offset
  }

  /** Page by page until one is empty: every row is handled once, in order. */
  method EachRow<S>(total: nat, start: S, handle: (S, nat, nat) -> S) returns (s: S, processed: nat)
    ensures processed == total && s == Handled(start, handle, total)
  {
    s, processed := start, 0;
    var offset := 0;
    ghost var page := 0;
    while true
      invariant offset == BATCH_SIZE * page && processed == (if offset <= total then offset else total)
      invariant s == Handled(start, handle, processed)
      decreases total + BATCH_SIZE - offset
    {
      var batch := PageSize(total, offset);
      if batch == 0 {
        break;
      }
      var i := 0;
      while i < batch
        invariant 0 <= i <= batch && processed == offset + i
        invariant s == Handled(start, handle, processed)
      {
        NumberIs(page, i);
        s := handle(s, offset + i, offset + processed);
        processed := processed + 1;
        i := i + 1;
      }
      offset, page := offset + BATCH_SIZE, page + 1;
    }
  }

  /** Where a run stands. */
  datatype Progress = Progress(connection: Connection, tally: Tally)

  /** What the loop body does with one row. */
  function HandleRow(reg: Registry, source: seq<Legacy>, faults: nat -> Fault, dryRun: bool)
    : (Progress, nat, nat) -> Progress
  {
    (p: Progress, i: nat, number: nat) =>
      if i >= |source| then p
      else
        var f := Normal(source[i].event, number);
        Progress(if dryRun then p.connection else WriteRow(p.connection, reg, f, source[i].receivedAt, faults(i)),
                 Counted(p.tally, Routes(reg, Get(f, EventType))))
  }

  const NOTHING_YET := Tally(0, 0, 0, 0)

  function After(t: Tables, reg: Registry, source: seq<Legacy>, faults: nat -> Fault, dryRun: bool, k: nat): Progress {
    Handled(Progress(Connection(t, t), NOTHING_YET), HandleRow(reg, source, faults, dryRun), k)
  }

  function EventOf(source: seq<Legacy>, i: nat): Fields
    requires i < |source|
  {
    Normal(source[i].event, Number(i))
  }

  /** How each row is routed. */
  function RoutesOf(reg: Registry, source: seq<Legacy>): nat -> Routing {
    (i: nat) => if i < |source| then Routes(reg, Get(EventOf(source, i), EventType)) else Routing(true, true)
  }

  function TallyOf(routes: nat -> Routing, k: nat): Tally {
    if k == 0 then NOTHING_YET else Counted(TallyOf(routes, k - 1), routes(k - 1))
  }

  /** One counter of the tally. */
  function Counter(t: Tally, r: Routing): nat {
    if r.business then (if r.ai then t.both else t.business) else (if r.ai then t.ai else t.neither)
  }

  /** The rows among the first k that are routed a given way. */
  function RoutedSo(routes: nat -> Routing, r: Routing, k: nat): set<nat> {
    set i: nat | i < k && routes(i) == r
  }

  lemma RoutedNext(routes: nat -> Routing, r: Routing, k: nat)
    ensures |RoutedSo(routes, r, k + 1)| == |RoutedSo(routes, r, k)| + if routes(k) == r then 1 else 0
  {
    assert RoutedSo(routes, r, k + 1) == if routes(k) == r then RoutedSo(routes, r, k) + {k}
                                         else RoutedSo(routes, r, k);
  }

  /** Each counter counts the rows of its own routing, and the four add up to the rows seen. */
  lemma {:induction false} CountersExact(routes: nat -> Routing, k: nat, r: Routing)
    ensures var t := TallyOf(routes, k);
            Counter(t, r) == |RoutedSo(routes, r, k)| && t.business + t.ai + t.both + t.neither == k
  {
    if k > 0 {
      CountersExact(routes, k - 1, r);
      RoutedNext(routes, r, k - 1);
      CountedOne(TallyOf(routes, k - 1), routes(k - 1), r);
    } else {
      assert RoutedSo(routes, r, 0) == {};
    }
  }

  lemma CountedOne(t: Tally, routes: Routing, r: Routing)
    ensures var t' := Counted(t, routes);
            && Counter(t', r) == Counter(t, r) + (if routes == r then 1 else 0)
            && t'.business + t'.ai + t'.both + t'.neither == t.business + t.ai + t.both + t.neither + 1
  {
  }

  /** An insert into the canonical tables, by live ingest or by the backfill. */
  datatype Insert = Insert(fields: Fields, at: int)

  /** What each row is written as. */
  function RowsOf(source: seq<Legacy>): nat -> Insert {
    (i: nat) => if i < |source| then Insert(EventOf(source, i), source[i].receivedAt) else Insert(map[], 0)
  }

  /** The connection after the first k rows. */
  function Written(t: Tables, reg: Registry, rows: nat -> Insert, faults: nat -> Fault, k: nat): Connection {
    if k == 0 then Connection(t, t)
    else WriteRow(Written(t, reg, rows, faults, k - 1), reg, rows(k - 1).fields, rows(k - 1).at, faults(k - 1))
  }

  /** What a run counts does not depend on faults or on whether it writes; a dry run writes nothing. */
  lemma {:induction false} TallyIndependent(t: Tables, reg: Registry, source: seq<Legacy>, faults: nat -> Fault,
                                            dryRun: bool, k: nat)
    requires k <= |source|
    ensures After(t, reg, source, faults, dryRun, k)
         == Progress(if dryRun then Connection(t, t)
                     else Written(t, reg, RowsOf(source), faults, k), TallyOf(RoutesOf(reg, source), k))
  {
    if k > 0 {
      TallyIndependent(t, reg, source, faults, dryRun, k - 1);
      HandleRowIs(reg, source, faults, dryRun, After(t, reg, source, faults, dryRun, k - 1), k - 1);
    }
  }

  lemma HandleRowIs(reg: Registry, source: seq<Legacy>, faults: nat -> Fault, dryRun: bool, p: Progress, i: nat)
    requires i < |source|
    ensures HandleRow(reg, source, faults, dryRun)(p, i, Number(i)) ==
            var row := RowsOf(source)(i);
            Progress(if dryRun then p.connection else WriteRow(p.connection, reg, row.fields, row.at, faults(i)),
                     Counted(p.tally, RoutesOf(reg, source)(i)))
  {
  }

  // ---------------------------------------------------------------- what the rows hold

  predicate IsRegistered(reg: Registry, e: Fields) {
    if Truthy(Get(e, EventType)) then e[EventType].Str? && e[EventType].s in reg else "" in reg
  }

  /** The registry entry of a legacy row's type; a row without a type has the empty one. */
  function Entry(reg: Registry, e: Fields): Routing
    requires IsRegistered(reg, e)
  {
    if Truthy(Get(e, EventType)) then reg[e[EventType].s] else reg[""]
  }

  /** The number of rows whose type is registered this way; unregistered types are for both tables. */
  ghost function Entries(reg: Registry, source: seq<Legacy>, business: bool, ai: bool): nat {
    |set i: nat | i < |source| && if IsRegistered(reg, source[i].event)
                  then Entry(reg, source[i].event).business == business
                       && Entry(reg, source[i].event).ai == ai
                  else business && ai|
  }

  lemma EntriesAre(reg: Registry, source: seq<Legacy>, business: bool, ai: bool)
    ensures |RoutedSo(RoutesOf(reg, source), Routing(business, ai), |source|)| == Entries(reg, source, business, ai)
  {
    var routed := RoutedSo(RoutesOf(reg, source), Routing(business, ai), |source|);
    var entered := set i: nat | i < |source| && if IsRegistered(reg, source[i].event)
                                then Entry(reg, source[i].event).business == business
                                     && Entry(reg, source[i].event).ai == ai
                                else business && ai;
    assert routed == entered;
  }

  lemma TallyEntries(reg: Registry, source: seq<Legacy>)
    ensures var t := TallyOf(RoutesOf(reg, source), |source|);
            && t.business == Entries(reg, source, true, false) && t.ai == Entries(reg, source, false, true)
            && t.both == Entries(reg, source, true, true) && t.neither == Entries(reg, source, false, false)
            && t.business + t.ai + t.both + t.neither == |source|
  {
    EntriesAre(reg, source, true, false);
    EntriesAre(reg, source, false, true);
    EntriesAre(reg, source, true, true);
    EntriesAre(reg, source, false, false);
    CountersExact(RoutesOf(reg, source), |source|, Routing(true, false));
    CountersExact(RoutesOf(reg, source), |source|, Routing(false, true));
    CountersExact(RoutesOf(reg, source), |source|, Routing(true, true));
    CountersExact(RoutesOf(reg, source), |source|, Routing(false, false));
  }

  /** Row i goes in under its own id, or under one made up from its place: the start of its page plus i. */
  predicate Labelled(source: seq<Legacy>, i: nat, n: string)
    requires i < |source|
  {
    var id := Get(source[i].event, EventId);
    if Truthy(id) then id == Str(n) else n == "<unknown-" + Decimal(i / 200 * 200 + i) + ">"
  }

  /** A stored row holds what the legacy row says: its own trace and payload, read as objects, its own
      timestamp and time of receipt, and its type, schema version and severity where they are not empty. */
  ghost predicate Says(row: Row, legacy: Legacy) {
    && row.receivedAt == legacy.receivedAt && ColumnsSay(CommonOf(row.fields), legacy.event)
    && CellsSay(row.fields, CommonOf(row.fields).trace)
  }

  ghost predicate ColumnsSay(k: Common, e: Fields) {
    && k.timestamp == Get(e, Timestamp) && Holds(e, Trace, k.trace)
    && k.payload.Obj? && Holds(e, Payload, k.payload.fields)
    && k.eventType == (if Truthy(Get(e, EventType)) then e[EventType] else Str(""))
    && k.schemaVersion == (if Truthy(Get(e, SchemaVersion)) then e[SchemaVersion] else Num(1))
    && k.severity == (if Truthy(Get(e, Severity)) then e[Severity] else Str("info"))
  }

  /** The id columns hold what the trace says. */
  predicate CellsSay(f: Fields, trace: Fields) {
    var b, a := BusinessCells(f), AiCells(f);
    && b.Keys == {"project_id", "milestone_id", "work_order_id", "task_id"}
    && b["project_id"] == Get(trace, ProjectId) && b["milestone_id"] == Get(trace, MilestoneId)
    && b["work_order_id"] == Get(trace, WorkOrderId) && b["task_id"] == Get(trace, TaskId)
    && a.Keys == {"session_id", "skill_id", "workflow_id", "agent_id", "hook_id", "model_id"}
    && a["session_id"] == Get(trace, SessionId) && a["agent_id"] == Get(trace, AgentId)
    && a["hook_id"] == Get(trace, HookId) && a["model_id"] == Get(trace, ModelId)
    && a["skill_id"] == Get(trace, if Truthy(Get(trace, SkillId)) then SkillId else SkillSpecifier)
    && a["workflow_id"] == Get(trace, if Truthy(Get(trace, WorkflowId)) then WorkflowId else StreamId)
  }

  ghost predicate SomeSource(source: seq<Legacy>, n: string, row: Row) {
    exists i :: 0 <= i < |source| && Labelled(source, i, n) && Says(row, source[i])
  }

  lemma NormalSays(source: seq<Legacy>, i: nat)
    requires i < |source|
    ensures Says(Row(EventOf(source, i), source[i].receivedAt), source[i])
  {
    NormalCommon(source[i].event, Number(i));
    NormalCells(source[i].event, Number(i));
  }

  lemma NormalLabel(source: seq<Legacy>, i: nat, n: string)
    requires i < |source|
    ensures Get(EventOf(source, i), EventId) == Str(n) <==> Labelled(source, i, n)
  {
  }

  lemma NormalCommon(e: Fields, number: nat)
    ensures var k := CommonOf(Normal(e, number)); ColumnsSay(k, e) && k.trace == AsObject(Get(e, Trace))
  {
    var f := Normal(e, number);
    assert f[Trace] == Obj(AsObject(Get(e, Trace))) && f[Payload] == Obj(AsObject(Get(e, Payload)));
  }

  lemma NormalCells(e: Fields, number: nat)
    ensures CellsSay(Normal(e, number), AsObject(Get(e, Trace)))
  {
    assert AsObject(Get(Normal(e, number), Trace)) == AsObject(Get(e, Trace));
  }

  /** The canonical rows that were not there come from the legacy rows. */
  ghost predicate NewRowsSay(t: Tables, source: seq<Legacy>, t': Tables) {
    && (forall n :: n in t'.business && n !in t.business ==> SomeSource(source, n, t'.business[n]))
    && (forall n :: n in t'.ai && n !in t.ai ==> SomeSource(source, n, t'.ai[n]))
  }

  lemma InsertSays(t: Tables, c: Tables, reg: Registry, source: seq<Legacy>, i: nat)
    requires i < |source| && NewRowsSay(t, source, c)
    ensures NewRowsSay(t, source, InsertCanonical(c, reg, EventOf(source, i), source[i].receivedAt))
  {
    var f, at := EventOf(source, i), source[i].receivedAt;
    OneTableSays(t.business, c.business, source, i, CanonicalComplete(f));
    OneTableSays(t.ai, c.ai, source, i, CanonicalComplete(f));
  }

  lemma OneTableSays(t: Table, c: Table, source: seq<Legacy>, i: nat, complete: bool)
    requires i < |source| && forall n :: n in c && n !in t ==> SomeSource(source, n, c[n])
    ensures var c' := InsertOrIgnore(c, EventOf(source, i), complete, source[i].receivedAt);
            forall n :: n in c' && n !in t ==> SomeSource(source, n, c'[n])
  {
    var f, c' := EventOf(source, i), InsertOrIgnore(c, EventOf(source, i), complete, source[i].receivedAt);
    forall n | n in c' && n !in t ensures SomeSource(source, n, c'[n]) {
      if n !in c {
        NormalLabel(source, i, n);
        NormalSays(source, i);
      }
    }
  }

  lemma {:induction false} NewRows(t: Tables, reg: Registry, source: seq<Legacy>, faults: nat -> Fault, k: nat)
    requires k <= |source|
    ensures NewRowsSay(t, source, Written(t, reg, RowsOf(source), faults, k).work)
  {
    if k > 0 {
      NewRows(t, reg, source, faults, k - 1);
      InsertSays(t, Written(t, reg, RowsOf(source), faults, k - 1).work, reg, source, k - 1);
      OneRowSays(t, reg, source, faults, k - 1);
    }
  }

  lemma OneRowSays(t: Tables, reg: Registry, source: seq<Legacy>, faults: nat -> Fault, k: nat)
    requires k < |source|
    requires var c := Written(t, reg, RowsOf(source), faults, k).work;
             && NewRowsSay(t, source, c)
             && NewRowsSay(t, source, InsertCanonical(c, reg, EventOf(source, k), source[k].receivedAt))
    ensures NewRowsSay(t, source, Written(t, reg, RowsOf(source), faults, k + 1).work)
  {
  }

  /** Whatever fails, a committed row that was not there holds what some legacy row of its id says. */
  lemma SavedRowsSay(t: Tables, reg: Registry, source: seq<Legacy>, faults: nat -> Fault)
    ensures NewRowsSay(t, source, Written(t, reg, RowsOf(source), faults, |source|).saved)
  {
    NewRows(t, reg, source, faults, |source|);
    NothingOverwritten(t, reg, RowsOf(source), faults, |source|);
  }

  /** An error-free backfill leaves an event in a table if and only if it was there, or a legacy row of its
      id has a timestamp and a type that is not registered or is registered for the table. */
  lemma BackfillMembers(t: Tables, reg: Registry, source: seq<Legacy>, faults: nat -> Fault, n: string)
    requires forall i :: 0 <= i < |source| ==> faults(i) == NoFault
    ensures var saved := Written(t, reg, RowsOf(source), faults, |source|).saved;
            && (n in saved.business <==>
                n in t.business
                || exists i :: 0 <= i < |source| && Labelled(source, i, n) && Get(source[i].event, Timestamp) != Null
                               && (IsRegistered(reg, source[i].event) ==> Entry(reg, source[i].event).business))
            && (n in saved.ai <==>
                n in t.ai
                || exists i :: 0 <= i < |source| && Labelled(source, i, n) && Get(source[i].event, Timestamp) != Null
                               && (IsRegistered(reg, source[i].event) ==> Entry(reg, source[i].event).ai))
  {
    MembersOf(t, reg, source, faults, n, Business);
    MembersOf(t, reg, source, faults, n, Ai);
    var saved := Written(t, reg, RowsOf(source), faults, |source|).saved;
    assert TableOf(saved, Business) == saved.business && TableOf(saved, Ai) == saved.ai;
    RowForIs(reg, source, n);
  }

  lemma RowForIs(reg: Registry, source: seq<Legacy>, n: string)
    ensures forall i :: 0 <= i < |source| ==>
                          (RowFor(reg, source, i, n, Business) <==>
                           Labelled(source, i, n) && Get(source[i].event, Timestamp) != Null
                           && (IsRegistered(reg, source[i].event) ==> Entry(reg, source[i].event).business))
    ensures forall i :: 0 <= i < |source| ==>
                          (RowFor(reg, source, i, n, Ai) <==>
                           Labelled(source, i, n) && Get(source[i].event, Timestamp) != Null
                           && (IsRegistered(reg, source[i].event) ==> Entry(reg, source[i].event).ai))
  {
  }

  lemma MembersOf(t: Tables, reg: Registry, source: seq<Legacy>, faults: nat -> Fault, n: string, to: Target)
    requires forall i :: 0 <= i < |source| ==> faults(i) == NoFault
    ensures n in TableOf(Written(t, reg, RowsOf(source), faults, |source|).saved, to) <==>
            n in TableOf(t, to) || exists i :: 0 <= i < |source| && RowFor(reg, source, i, n, to)
  {
    var rows := Inserts(RowsOf(source), |source|);
    BackfillIsInserts(t, reg, RowsOf(source), faults, |source|);
    Membership(t, reg, rows, n, to);
    InsertsAre(source, |source|);
    forall i | 0 <= i < |source| ensures For(reg, rows[i].fields, n, to) <==> RowFor(reg, source, i, n, to) {
      ForIs(reg, source, i, n, to);
    }
    SomeRowFor(reg, source, rows, n, to);
  }

  predicate RowFor(reg: Registry, source: seq<Legacy>, i: nat, n: string, to: Target)
    requires i < |source|
  {
    && Labelled(source, i, n) && Get(source[i].event, Timestamp) != Null
    && (IsRegistered(reg, source[i].event) ==>
          if to.Business? then Entry(reg, source[i].event).business else Entry(reg, source[i].event).ai)
  }

  lemma ForIs(reg: Registry, source: seq<Legacy>, i: nat, n: string, to: Target)
    requires i < |source|
    ensures For(reg, EventOf(source, i), n, to) <==> RowFor(reg, source, i, n, to)
  {
    NormalLabel(source, i, n);
  }

  lemma SomeRowFor(reg: Registry, source: seq<Legacy>, rows: seq<Insert>, n: string, to: Target)
    requires |rows| == |source|
    requires forall i :: 0 <= i < |source| ==> (For(reg, rows[i].fields, n, to) <==> RowFor(reg, source, i, n, to))
    ensures SomeFor(reg, rows, n, to) <==> exists i :: 0 <= i < |source| && RowFor(reg, source, i, n, to)
  {
  }

  class CanonicalStore {
    var tables: Tables
    const reg: Registry

    /** Every source row is seen exactly once, whatever fails; a dry run counts the same and writes
        nothing.  What was pending when the connection closes is lost. */
    method RunBackfill(source: seq<Legacy>, faults: nat -> Fault, dryRun: bool) returns (processed: nat, tally: Tally)
      modifies this
      ensures processed == |source| && tally.business + tally.ai + tally.both + tally.neither == processed
      ensures tally == TallyOf(RoutesOf(reg, source), |source|)
      ensures tally == Tally(business := Entries(reg, source, true, false), ai := Entries(reg, source, false, true),
                             both := Entries(reg, source, true, true), neither := Entries(reg, source, false, false))
      ensures tables == if dryRun then old(tables)
                        else Written(old(tables), reg, RowsOf(source), faults, |source|).saved
      ensures forall n :: n in old(tables).business ==>
                            n in tables.business && tables.business[n] == old(tables).business[n]
      ensures forall n :: n in old(tables).ai ==> n in tables.ai && tables.ai[n] == old(tables).ai[n]
      ensures forall n :: n in tables.business && n !in old(tables).business ==>
                            SomeSource(source, n, tables.business[n])
      ensures forall n :: n in tables.ai && n !in old(tables).ai ==> SomeSource(source, n, tables.ai[n])
    {
      TallyIndependent(tables, reg, source, faults, dryRun, |source|);
      TallyEntries(reg, source);
      NothingOverwritten(tables, reg, RowsOf(source), faults, |source|);
      SavedRowsSay(tables, reg, source, faults);
      var p;
      p, processed := EachRow(|source|, Progress(Connection(tables, tables), NOTHING_YET),
                              HandleRow(reg, source, faults, dryRun));
      tally := p.tally;
      tables := p.connection.saved;
    }
  }

  // ---------------------------------------------------------------- agreement with live ingest

  function InsertEach(t: Tables, reg: Registry, inserts: seq<Insert>): Tables
    decreases |inserts|
  {
    if inserts == [] then t
    else
      var last := inserts[|inserts| - 1];
      InsertCanonical(InsertEach(t, reg, inserts[..|inserts| - 1]), reg, last.fields, last.at)
  }

  datatype Target = Business | Ai

  predicate Goes(r: Routing, to: Target) { if to.Business? then r.business else r.ai }

  function TableOf(t: Tables, to: Target): Table { if to.Business? then t.business else t.ai }

  /** The insert puts event n into the table, if it is not there. */
  predicate For(reg: Registry, f: Fields, n: string, to: Target) {
    Get(f, EventId) == Str(n) && CanonicalComplete(f) && Goes(Routes(reg, Get(f, EventType)), to)
  }

  ghost predicate SomeFor(reg: Registry, inserts: seq<Insert>, n: string, to: Target) {
    exists i :: 0 <= i < |inserts| && For(reg, inserts[i].fields, n, to)
  }

  lemma SomeNext(reg: Registry, inserts: seq<Insert>, n: string, to: Target)
    requires inserts != []
    ensures var init, last := inserts[..|inserts| - 1], inserts[|inserts| - 1];
            SomeFor(reg, inserts, n, to) <==> SomeFor(reg, init, n, to) || For(reg, last.fields, n, to)
  {
  }

  lemma InsertMember(t: Tables, reg: Registry, f: Fields, at: int, n: string, to: Target)
    ensures var before, after := TableOf(t, to), TableOf(InsertCanonical(t, reg, f, at), to);
            (n in after <==> n in before || For(reg, f, n, to)) && (n in before ==> after[n] == before[n])
  {
  }

  /** What is in a table after any sequence of inserts does not depend on their order, and no row that
      was there is overwritten. */
  lemma {:induction false} Membership(t: Tables, reg: Registry, inserts: seq<Insert>, n: string, to: Target)
    ensures var before, after := TableOf(t, to), TableOf(InsertEach(t, reg, inserts), to);
            (n in after <==> n in before || SomeFor(reg, inserts, n, to)) && (n in before ==> after[n] == before[n])
    decreases |inserts|
  {
    if inserts != [] {
      var init, last := inserts[..|inserts| - 1], inserts[|inserts| - 1];
      Membership(t, reg, init, n, to);
      SomeNext(reg, inserts, n, to);
      InsertMember(InsertEach(t, reg, init), reg, last.fields, last.at, n, to);
    }
  }

  /** Two events that mean the same to the canonical tables. */
  predicate Alike(reg: Registry, f: Fields, g: Fields) {
    && Get(f, EventId) == Get(g, EventId) && CanonicalComplete(f) == CanonicalComplete(g)
    && Routes(reg, Get(f, EventType)) == Routes(reg, Get(g, EventType))
  }

  predicate NullSeverity(f: Fields) { Severity in f && f[Severity] == Null }

  predicate TextOrNull(j: Json) { j.Null? || j.Str? || j.Encoded? }

  /** The event type comes from a text column. */
  predicate Columned(f: Fields) { TextOrNull(Get(f, EventType)) }

  /** A default of the backfill takes the place of a value. */
  predicate Defaulted(f: Fields) {
    !Truthy(Get(f, EventId)) || Get(f, EventType) == Null || Get(f, SchemaVersion) == Null || NullSeverity(f)
  }

  /** The row's defaults change nothing for the canonical tables exactly when its id is not empty and,
      if it has a timestamp, its type, its schema version and its severity are no nulls; a null type
      without a timestamp must be routed like the empty one. */
  lemma NormalIsAlike(reg: Registry, f: Fields, number: nat)
    requires Columned(f)
    ensures Alike(reg, f, Normal(f, number)) <==>
            && Truthy(Get(f, EventId)) && (Get(f, Timestamp) != Null ==> !Defaulted(f))
            && (Get(f, EventType) == Null ==> Routes(reg, Str("")) == Routing(true, true))
  {
    assert CanonicalComplete(Normal(f, number)) <==> Get(f, Timestamp) != Null;
    assert CanonicalComplete(f) <==>
           Get(f, Timestamp) != Null && Get(f, EventType) != Null && Get(f, SchemaVersion) != Null && !NullSeverity(f);
  }

  /** `g` is what the backfill writes for a legacy row whose event is `f`. */
  ghost predicate BackfillOf(source: seq<Legacy>, f: Fields, g: Fields) {
    exists j :: 0 <= j < |source| && source[j].event == f && g == EventOf(source, j)
  }

  /** The insert is a live one, or the backfill's row for a live event. */
  ghost predicate Stands(source: seq<Legacy>, live: Insert, i: Insert) {
    i.fields == live.fields || BackfillOf(source, live.fields, i.fields)
  }

  ghost predicate StandsForSome(source: seq<Legacy>, live: seq<Insert>, i: Insert) {
    exists j :: 0 <= j < |live| && Stands(source, live[j], i)
  }

  ghost predicate SomeStandsFor(source: seq<Legacy>, live: Insert, mixed: seq<Insert>) {
    exists i :: 0 <= i < |mixed| && Stands(source, live, mixed[i])
  }

  /** An interleaving of live inserts and backfill rows of the same events: nothing else is inserted,
      and every live event is, live or by the backfill. */
  ghost predicate Interleaves(source: seq<Legacy>, mixed: seq<Insert>, live: seq<Insert>) {
    && (forall i :: 0 <= i < |mixed| ==> StandsForSome(source, live, mixed[i]))
    && (forall j :: 0 <= j < |live| ==> SomeStandsFor(source, live[j], mixed))
  }

  ghost predicate AllColumned(source: seq<Legacy>) {
    forall j :: 0 <= j < |source| ==> Columned(source[j].event)
  }

  /** The backfill's row of a legacy event puts n into the table: under its own id or under the one made
      up for it, with a timestamp, and by the route of its type or of the empty one. */
  predicate Adds(reg: Registry, f: Fields, number: nat, n: string, to: Target) {
    && n == IdFor(f, number) && Get(f, Timestamp) != Null
    && Goes(Routes(reg, if Get(f, EventType) == Null then Str("") else Get(f, EventType)), to)
    && (Truthy(Get(f, EventId)) ==> Get(f, EventId).Str?)
  }

  function IdFor(f: Fields, number: nat): string {
    if Get(f, EventId).Str? && Truthy(Get(f, EventId)) then Get(f, EventId).s else "<unknown-" + Decimal(number) + ">"
  }

  /** The insert is the backfill's row of an event that live ingest does not put there, but a default
      does. */
  ghost predicate ExtraRow(reg: Registry, source: seq<Legacy>, i: Insert, n: string, to: Target) {
    exists j :: 0 <= j < |source| && ExtraAt(reg, source[j].event, Number(j), n, to) && i.fields == EventOf(source, j)
  }

  predicate ExtraAt(reg: Registry, f: Fields, number: nat, n: string, to: Target) {
    Adds(reg, f, number, n, to) && Defaulted(f)
  }

  ghost predicate SomeExtra(reg: Registry, source: seq<Legacy>, mixed: seq<Insert>, n: string, to: Target) {
    exists i :: 0 <= i < |mixed| && ExtraRow(reg, source, mixed[i], n, to)
  }

  /** What the backfill's row for an event means to a table: what the live insert means, unless its id
      is empty, and what the defaults add. */
  lemma NormalFor(reg: Registry, f: Fields, number: nat, n: string, to: Target)
    requires Columned(f)
    ensures For(reg, Normal(f, number), n, to) <==> Adds(reg, f, number, n, to)
    ensures Adds(reg, f, number, n, to) <==> (For(reg, f, n, to) && n != "") || ExtraAt(reg, f, number, n, to)
    ensures For(reg, f, n, to) ==> !ExtraAt(reg, f, number, n, to)
  {
  }

  lemma StandsMeans(reg: Registry, source: seq<Legacy>, live: Insert, i: Insert, n: string, to: Target)
    requires Stands(source, live, i) && AllColumned(source)
    ensures For(reg, live.fields, n, to) && n != "" ==> For(reg, i.fields, n, to)
    ensures For(reg, i.fields, n, to) ==> For(reg, live.fields, n, to) || ExtraRow(reg, source, i, n, to)
    ensures For(reg, i.fields, "", to) ==> i.fields == live.fields
  {
    if i.fields != live.fields {
      var j :| 0 <= j < |source| && source[j].event == live.fields && i.fields == EventOf(source, j);
      NormalFor(reg, source[j].event, Number(j), n, to);
      NormalFor(reg, source[j].event, Number(j), "", to);
    }
  }

  lemma ExtraRowCounts(reg: Registry, source: seq<Legacy>, i: Insert, n: string, to: Target)
    requires AllColumned(source) && ExtraRow(reg, source, i, n, to)
    ensures For(reg, i.fields, n, to) && n != ""
  {
    var j :| 0 <= j < |source| && ExtraAt(reg, source[j].event, Number(j), n, to) && i.fields == EventOf(source, j);
    NormalFor(reg, source[j].event, Number(j), n, to);
  }

  /** An event that live ingest puts into the table was inserted live. */
  ghost predicate WentLive(reg: Registry, mixed: seq<Insert>, live: seq<Insert>, n: string, to: Target) {
    exists i :: 0 <= i < |mixed| && InsertedLive(mixed[i].fields, live) && For(reg, mixed[i].fields, n, to)
  }

  /** Every insert for n is one that live ingest makes, or an extra one. */
  lemma MixedFrom(reg: Registry, source: seq<Legacy>, mixed: seq<Insert>, live: seq<Insert>, i: nat, n: string,
                  to: Target)
    requires Interleaves(source, mixed, live) && AllColumned(source) && i < |mixed| && For(reg, mixed[i].fields, n, to)
    ensures SomeFor(reg, live, n, to) || SomeExtra(reg, source, mixed, n, to)
    ensures n == "" ==> WentLive(reg, mixed, live, n, to)
  {
    assert StandsForSome(source, live, mixed[i]);
    var j :| 0 <= j < |live| && Stands(source, live[j], mixed[i]);
    StandsMeans(reg, source, live[j], mixed[i], n, to);
    if n == "" {
      assert InsertedLive(mixed[i].fields, live);
    }
  }

  /** Every live insert for n has one that stands for it, unless n is empty. */
  lemma LiveFrom(reg: Registry, source: seq<Legacy>, mixed: seq<Insert>, live: seq<Insert>, j: nat, n: string,
                 to: Target)
    requires Interleaves(source, mixed, live) && AllColumned(source) && j < |live| && For(reg, live[j].fields, n, to)
    requires n != ""
    ensures SomeFor(reg, mixed, n, to)
  {
    assert SomeStandsFor(source, live[j], mixed);
    var i :| 0 <= i < |mixed| && Stands(source, live[j], mixed[i]);
    StandsMeans(reg, source, live[j], mixed[i], n, to);
  }

  lemma ExtraCounts(reg: Registry, source: seq<Legacy>, mixed: seq<Insert>, n: string, to: Target)
    requires AllColumned(source) && SomeExtra(reg, source, mixed, n, to)
    ensures SomeFor(reg, mixed, n, to)
  {
    var i :| 0 <= i < |mixed| && ExtraRow(reg, source, mixed[i], n, to);
    ExtraRowCounts(reg, source, mixed[i], n, to);
  }

  lemma MixedFor(reg: Registry, source: seq<Legacy>, mixed: seq<Insert>, live: seq<Insert>, n: string, to: Target)
    requires Interleaves(source, mixed, live) && AllColumned(source)
    ensures SomeFor(reg, mixed, n, to) <==>
            (if n == "" then WentLive(reg, mixed, live, n, to) else SomeFor(reg, live, n, to))
            || SomeExtra(reg, source, mixed, n, to)
  {
    if i :| 0 <= i < |mixed| && For(reg, mixed[i].fields, n, to) {
      MixedFrom(reg, source, mixed, live, i, n, to);
    }
    if j :| n != "" && 0 <= j < |live| && For(reg, live[j].fields, n, to) {
      LiveFrom(reg, source, mixed, live, j, n, to);
    }
    if SomeExtra(reg, source, mixed, n, to) {
      ExtraCounts(reg, source, mixed, n, to);
    }
  }

  /** Any error-free interleaving of live ingest with the backfill of the legacy table gives the
      members live ingest alone gives, plus exactly the events that a default of the backfill adds;
      only an event of empty id must itself be inserted live.  No row that was there is overwritten. */
  lemma BackfillDiffers(t: Tables, reg: Registry, source: seq<Legacy>, mixed: seq<Insert>, live: seq<Insert>, n: string,
                        to: Target)
    requires Interleaves(source, mixed, live) && AllColumned(source)
    ensures var before, a, b := TableOf(t, to), TableOf(InsertEach(t, reg, mixed), to),
                                TableOf(InsertEach(t, reg, live), to);
            && (n in a <==> (if n == "" then n in before || WentLive(reg, mixed, live, n, to) else n in b)
                            || SomeExtra(reg, source, mixed, n, to))
            && (n in before ==> n in a && a[n] == before[n])
  {
    Membership(t, reg, mixed, n, to);
    Membership(t, reg, live, n, to);
    MixedFor(reg, source, mixed, live, n, to);
  }

  ghost predicate NoneDefaulted(source: seq<Legacy>) {
    forall j :: 0 <= j < |source| ==> !Defaulted(source[j].event)
  }

  /** So, when no default takes the place of a value, the backfill agrees with live ingest. */
  lemma BackfillAgrees(t: Tables, reg: Registry, source: seq<Legacy>, mixed: seq<Insert>, live: seq<Insert>, n: string,
                       to: Target)
    requires Interleaves(source, mixed, live) && AllColumned(source) && NoneDefaulted(source)
    ensures var before, a, b := TableOf(t, to), TableOf(InsertEach(t, reg, mixed), to),
                                TableOf(InsertEach(t, reg, live), to);
            (n in a <==> n in b) && (n in before ==> n in a && a[n] == before[n])
  {
    BackfillDiffers(t, reg, source, mixed, live, n, to);
    Membership(t, reg, live, n, to);
    if n == "" {
      EmptyWentLive(reg, source, mixed, live, to);
    }
  }

  /** An event of empty id has no row of its own id in the legacy table, so it is there live or not at
      all. */
  lemma EmptyWentLive(reg: Registry, source: seq<Legacy>, mixed: seq<Insert>, live: seq<Insert>, to: Target)
    requires Interleaves(source, mixed, live) && NoneDefaulted(source)
    ensures WentLive(reg, mixed, live, "", to) <==> SomeFor(reg, live, "", to)
  {
    if j :| 0 <= j < |live| && For(reg, live[j].fields, "", to) {
      assert SomeStandsFor(source, live[j], mixed);
      var i :| 0 <= i < |mixed| && Stands(source, live[j], mixed[i]);
      EmptyStands(reg, source, live[j], mixed[i], to);
      assert InsertedLive(mixed[i].fields, live);
    }
    if WentLive(reg, mixed, live, "", to) {
      WentLiveIsLive(reg, mixed, live, "", to);
    }
  }

  lemma EmptyStands(reg: Registry, source: seq<Legacy>, live: Insert, i: Insert, to: Target)
    requires NoneDefaulted(source) && For(reg, live.fields, "", to) && Stands(source, live, i)
    ensures i.fields == live.fields
  {
  }

  lemma WentLiveIsLive(reg: Registry, mixed: seq<Insert>, live: seq<Insert>, n: string, to: Target)
    requires WentLive(reg, mixed, live, n, to)
    ensures SomeFor(reg, live, n, to)
  {
    var i :| 0 <= i < |mixed| && InsertedLive(mixed[i].fields, live) && For(reg, mixed[i].fields, n, to);
    var l :| 0 <= l < |live| && live[l].fields == mixed[i].fields;
    assert For(reg, live[l].fields, n, to);
  }

  /** Every legacy event was ingested live. */
  ghost predicate AllLive(source: seq<Legacy>, live: seq<Insert>) {
    forall j :: 0 <= j < |source| ==> InsertedLive(source[j].event, live)
  }

  ghost predicate InsertedLive(f: Fields, live: seq<Insert>) {
    exists l :: 0 <= l < |live| && live[l].fields == f
  }

  lemma LiveThenRows(source: seq<Legacy>, live: seq<Insert>)
    requires AllLive(source, live)
    ensures Interleaves(source, live + Inserts(RowsOf(source), |source|), live)
  {
    var rows := Inserts(RowsOf(source), |source|);
    InsertsAre(source, |source|);
    var mixed := live + rows;
    forall i | 0 <= i < |mixed| ensures StandsForSome(source, live, mixed[i]) {
      if i < |live| {
        assert Stands(source, live[i], mixed[i]);
      } else {
        assert InsertedLive(source[i - |live|].event, live);
        var l :| 0 <= l < |live| && live[l].fields == source[i - |live|].event;
        assert BackfillOf(source, live[l].fields, mixed[i].fields);
        assert Stands(source, live[l], mixed[i]);
      }
    }
    forall l | 0 <= l < |live| ensures SomeStandsFor(source, live[l], mixed) {
      assert Stands(source, live[l], mixed[l]);
    }
  }

  /** Some legacy row adds n through a default. */
  ghost predicate ExtraIn(reg: Registry, source: seq<Legacy>, n: string, to: Target) {
    exists j :: 0 <= j < |source| && ExtraAt(reg, source[j].event, Number(j), n, to)
  }

  lemma ExtraIsIn(reg: Registry, source: seq<Legacy>, live: seq<Insert>, n: string, to: Target)
    ensures SomeExtra(reg, source, live + Inserts(RowsOf(source), |source|), n, to) <==> ExtraIn(reg, source, n, to)
  {
    var rows := Inserts(RowsOf(source), |source|);
    InsertsAre(source, |source|);
    if j :| 0 <= j < |source| && ExtraAt(reg, source[j].event, Number(j), n, to) {
      assert (live + rows)[|live| + j] == rows[j];
      assert ExtraRow(reg, source, (live + rows)[|live| + j], n, to);
    }
    if SomeExtra(reg, source, live + rows, n, to) {
      var i :| 0 <= i < |live + rows| && ExtraRow(reg, source, (live + rows)[i], n, to);
    }
  }

  /** In particular a whole error-free backfill after live ingest of the same events adds exactly the
      events of the legacy rows that a default gives an id, a type, a schema version or a severity. */
  lemma BackfillAfterLive(t: Tables, reg: Registry, source: seq<Legacy>, live: seq<Insert>, faults: nat -> Fault,
                          n: string, to: Target)
    requires AllColumned(source) && AllLive(source, live) && forall i :: 0 <= i < |source| ==> faults(i) == NoFault
    ensures var b := InsertEach(t, reg, live);
            n in TableOf(Written(b, reg, RowsOf(source), faults, |source|).saved, to) <==>
                 n in TableOf(b, to) || ExtraIn(reg, source, n, to)
  {
    var rows := Inserts(RowsOf(source), |source|);
    BackfillIsInserts(InsertEach(t, reg, live), reg, RowsOf(source), faults, |source|);
    InsertTwice(t, reg, live, rows);
    LiveThenRows(source, live);
    BackfillDiffers(t, reg, source, live + rows, live, n, to);
    ExtraIsIn(reg, source, live, n, to);
    Membership(t, reg, live, n, to);
    if n == "" {
      AllWentLive(reg, live, rows, to);
    }
  }

  lemma AllWentLive(reg: Registry, live: seq<Insert>, rows: seq<Insert>, to: Target)
    ensures WentLive(reg, live + rows, live, "", to) <==> SomeFor(reg, live, "", to)
  {
    if j :| 0 <= j < |live| && For(reg, live[j].fields, "", to) {
      assert (live + rows)[j] == live[j] && InsertedLive(live[j].fields, live);
    }
    if WentLive(reg, live + rows, live, "", to) {
      WentLiveIsLive(reg, live + rows, live, "", to);
    }
  }

  lemma {:induction false} InsertTwice(t: Tables, reg: Registry, a: seq<Insert>, b: seq<Insert>)
    ensures InsertEach(t, reg, a + b) == InsertEach(InsertEach(t, reg, a), reg, b)
    decreases |b|
  {
    if b == [] {
      assert a + b == a;
    } else {
      InsertTwice(t, reg, a, b[..|b| - 1]);
      assert (a + b)[..|a + b| - 1] == a + b[..|b| - 1];
    }
  }

  lemma {:induction false} InsertsAre(source: seq<Legacy>, k: nat)
    requires k <= |source|
    ensures var rows := Inserts(RowsOf(source), k);
            |rows| == k && forall i :: 0 <= i < k ==> rows[i].fields == EventOf(source, i)
  {
    if k > 0 {
      InsertsAre(source, k - 1);
    }
  }

  /** The inserts an error-free backfill makes. */
  function Inserts(rows: nat -> Insert, k: nat): seq<Insert> {
    if k == 0 then [] else Inserts(rows, k - 1) + [rows(k - 1)]
  }

  /** A row written without a fault is one more committed insert. */
  lemma OneMoreInsert(t: Tables, reg: Registry, inserts: seq<Insert>, i: Insert)
    ensures var done, more := InsertEach(t, reg, inserts), InsertEach(t, reg, inserts + [i]);
            WriteRow(Connection(done, done), reg, i.fields, i.at, NoFault) == Connection(more, more)
  {
    assert (inserts + [i])[..|inserts|] == inserts;
  }

  /** An error-free backfill is those inserts, all of them committed. */
  lemma {:induction false} BackfillIsInserts(t: Tables, reg: Registry, rows: nat -> Insert, faults: nat -> Fault,
                                             k: nat)
    requires forall i :: 0 <= i < k ==> faults(i) == NoFault
    ensures var done := InsertEach(t, reg, Inserts(rows, k)); Written(t, reg, rows, faults, k) == Connection(done, done)
  {
    if k > 0 {
      BackfillIsInserts(t, reg, rows, faults, k - 1);
      OneMoreInsert(t, reg, Inserts(rows, k - 1), rows(k - 1));
    }
  }

  /** Whatever fails, no row that was there is overwritten, and what is committed is what the
      connection sees or a part of it. */
  lemma {:induction false} NothingOverwritten(t: Tables, reg: Registry, rows: nat -> Insert, faults: nat -> Fault,
                                              k: nat)
    ensures var c := Written(t, reg, rows, faults, k); Grows(t, c.saved) && Grows(c.saved, c.work)
  {
    if k > 0 {
      NothingOverwritten(t, reg, rows, faults, k - 1);
      WriteRowGrows(t, Written(t, reg, rows, faults, k - 1), reg, rows(k - 1).fields, rows(k - 1).at, faults(k - 1));
    }
  }

  /** The canonical tables of `a` are in `b`, unchanged. */
  ghost predicate Grows(a: Tables, b: Tables) {
    SubMap(a.business, b.business) && SubMap(a.ai, b.ai)
  }

  lemma WriteRowGrows(t: Tables, c: Connection, reg: Registry, f: Fields, at: int, fault: Fault)
    requires Grows(t, c.saved) && Grows(c.saved, c.work)
    ensures var c' := WriteRow(c, reg, f, at, fault); Grows(t, c'.saved) && Grows(c'.saved, c'.work)
  {
    InsertGrows(c.work, reg, f, at);
  }

  lemma InsertGrows(t: Tables, reg: Registry, f: Fields, at: int)
    ensures Grows(t, InsertCanonical(t, reg, f, at))
  {
  }

  // ---------------------------------------------------------------- pairs

  /** The row reaches its commit and the commit goes through. */
  predicate Commits(reg: Registry, f: Fields, fault: Fault) {
    var routes := Routes(reg, Get(f, EventType));
    && (routes.business || routes.ai) && !(routes.business && fault == BusinessFails)
    && !(routes.ai && fault == AiFails) && fault != CommitFails
  }

  /** Some row from i to k - 1 commits. */
  ghost predicate CommittedSince(reg: Registry, rows: nat -> Insert, faults: nat -> Fault, i: nat, k: nat) {
    exists l :: i <= l < k && Commits(reg, rows(l).fields, faults(l))
  }

  lemma CommittedNext(reg: Registry, rows: nat -> Insert, faults: nat -> Fault, i: nat, k: nat)
    requires i <= k
    ensures CommittedSince(reg, rows, faults, i, k + 1) <==>
            CommittedSince(reg, rows, faults, i, k) || Commits(reg, rows(k).fields, faults(k))
  {
    if l :| i <= l < k && Commits(reg, rows(l).fields, faults(l)) {
      assert i <= l < k + 1;
    }
  }

  /** What one more row does to an event that is not its own. */
  lemma OtherRow(c: Connection, reg: Registry, f: Fields, at: int, fault: Fault, n: string)
    requires Get(f, EventId) != Str(n)
    ensures var c' := WriteRow(c, reg, f, at, fault);
            && (n in c'.work.business <==> n in c.work.business) && (n in c'.work.ai <==> n in c.work.ai)
            && (n in c'.saved.business <==> n in (if Commits(reg, f, fault) then c.work.business else c.saved.business))
            && (n in c'.saved.ai <==> n in (if Commits(reg, f, fault) then c.work.ai else c.saved.ai))
  {
  }

  /** Where an event routed to both tables stands after k rows, i being its own. */
  lemma {:induction false} PairAfter(t: Tables, reg: Registry, rows: nat -> Insert, faults: nat -> Fault, k: nat,
                                     i: nat, n: string)
    requires For(reg, rows(i).fields, n, Business) && For(reg, rows(i).fields, n, Ai) && n !in t.business && n !in t.ai
    requires forall l :: 0 <= l < k && l != i ==> Get(rows(l).fields, EventId) != Str(n)
    ensures var c := Written(t, reg, rows, faults, k);
            && (n in c.work.business <==> i < k && faults(i) != BusinessFails)
            && (n in c.work.ai <==> i < k && faults(i) != BusinessFails && faults(i) != AiFails)
            && (n in c.saved.business <==> n in c.work.business && CommittedSince(reg, rows, faults, i, k))
            && (n in c.saved.ai <==> n in c.work.ai && CommittedSince(reg, rows, faults, i, k))
    decreases k
  {
    if k > 0 {
      PairAfter(t, reg, rows, faults, k - 1, i, n);
      if i <= k - 1 {
        CommittedNext(reg, rows, faults, i, k - 1);
      }
      if i != k - 1 {
        OtherRow(Written(t, reg, rows, faults, k - 1), reg, rows(k - 1).fields, rows(k - 1).at, faults(k - 1), n);
      }
    }
  }

  /** A pair survives a backfill, whatever fails in it, exactly unless its own AI insert fails and a
      later row commits what its business insert left pending.  Ids are distinct and the event is new
      to the tables. */
  lemma PairSurvives(t: Tables, reg: Registry, rows: nat -> Insert, faults: nat -> Fault, k: nat, i: nat, n: string)
    requires i < k && For(reg, rows(i).fields, n, Business) && For(reg, rows(i).fields, n, Ai)
    requires n !in t.business && n !in t.ai
    requires forall l :: 0 <= l < k && l != i ==> Get(rows(l).fields, EventId) != Str(n)
    ensures var saved := Written(t, reg, rows, faults, k).saved;
            (n in saved.business <==> n in saved.ai) <==>
            !(faults(i) == AiFails && CommittedSince(reg, rows, faults, i + 1, k))
  {
    PairAfter(t, reg, rows, faults, k, i, n);
    if l :| i <= l < k && Commits(reg, rows(l).fields, faults(l)) {
      assert l == i || i + 1 <= l < k;
    }
  }

  // ---------------------------------------------------------------- what cannot be bound

  /** The columns of the two inserts that the trace gives as they are. */
  function BusinessCells(f: Fields): Upsert.Cells {
    var trace := AsObject(Get(f, Trace));
    map["project_id" := Get(trace, ProjectId), "milestone_id" := Get(trace, MilestoneId),
        "work_order_id" := Get(trace, WorkOrderId), "task_id" := Get(trace, TaskId)]
  }

  function AiCells(f: Fields): Upsert.Cells {
    var trace := AsObject(Get(f, Trace));
    map["session_id" := Get(trace, SessionId), "skill_id" := Or(Get(trace, SkillId), Get(trace, SkillSpecifier)),
        "workflow_id" := Or(Get(trace, WorkflowId), Get(trace, StreamId)), "agent_id" := Get(trace, AgentId),
        "hook_id" := Get(trace, HookId), "model_id" := Get(trace, ModelId)]
  }

  /** What a row's own values do to its inserts: a list or an object cannot be bound. */
  function FaultOf(reg: Registry, f: Fields): Fault {
    var routes := Routes(reg, Get(f, EventType));
    if routes.business && !Upsert.Bindable(BusinessCells(f)) then BusinessFails
    else if routes.ai && !Upsert.Bindable(AiCells(f)) then AiFails else NoFault
  }

  /** The faults are those of the rows' own values. */
  ghost predicate OwnFaults(reg: Registry, rows: nat -> Insert, faults: nat -> Fault, k: nat) {
    forall l :: 0 <= l < k ==> faults(l) == FaultOf(reg, rows(l).fields)
  }

  /** The row is routed somewhere, and all it writes there can be bound. */
  predicate Writable(reg: Registry, f: Fields) {
    var routes := Routes(reg, Get(f, EventType));
    && (routes.business || routes.ai) && (routes.business ==> Upsert.Bindable(BusinessCells(f)))
    && (routes.ai ==> Upsert.Bindable(AiCells(f)))
  }

  ghost predicate WritableBetween(reg: Registry, rows: nat -> Insert, i: nat, k: nat) {
    exists l :: i < l < k && Writable(reg, rows(l).fields)
  }

  /** On a database that works, a pair survives exactly unless the AI columns of its row hold a list or
      an object, its business columns do not, and a later row can be written. */
  lemma PairSurvivesItsValues(t: Tables, reg: Registry, rows: nat -> Insert, faults: nat -> Fault, k: nat, i: nat,
                              n: string)
    requires OwnFaults(reg, rows, faults, k)
    requires i < k && For(reg, rows(i).fields, n, Business) && For(reg, rows(i).fields, n, Ai)
    requires n !in t.business && n !in t.ai
    requires forall l :: 0 <= l < k && l != i ==> Get(rows(l).fields, EventId) != Str(n)
    ensures var saved, f := Written(t, reg, rows, faults, k).saved, rows(i).fields;
            (n in saved.business <==> n in saved.ai) <==>
            !(Upsert.Bindable(BusinessCells(f)) && !Upsert.Bindable(AiCells(f)) && WritableBetween(reg, rows, i, k))
  {
    PairSurvives(t, reg, rows, faults, k, i, n);
    if l :| i + 1 <= l < k && Commits(reg, rows(l).fields, faults(l)) {
      assert Writable(reg, rows(l).fields);
    }
    if l :| i < l < k && Writable(reg, rows(l).fields) {
      assert Commits(reg, rows(l).fields, faults(l));
    }
  }

  lemma ListSession(reg: Registry, f: Fields, items: seq<Json>)
    requires Get(f, Trace) == Obj(map[SessionId := Arr(items)]) && Routes(reg, Get(f, EventType)) == Routing(true, true)
    ensures FaultOf(reg, f) == AiFails
  {
    assert AiCells(f)["session_id"] == Arr(items);
  }

  /** The shortest such run: a trace whose session id is a list, and a row after it that can be written,
      whose commit saves the business row alone. */
  lemma FailedInsertSplitsPair(t: Tables, reg: Registry, rows: nat -> Insert, faults: nat -> Fault, n: string,
                               items: seq<Json>)
    requires For(reg, rows(0).fields, n, Business) && For(reg, rows(0).fields, n, Ai) && n !in t.business && n !in t.ai
    requires Get(rows(0).fields, Trace) == Obj(map[SessionId := Arr(items)])
    requires Get(rows(1).fields, EventId) != Str(n) && Writable(reg, rows(1).fields)
    requires OwnFaults(reg, rows, faults, 2)
    ensures faults(0) == AiFails
    ensures var saved := Written(t, reg, rows, faults, 2).saved; n in saved.business && n !in saved.ai
  {
    ListSession(reg, rows(0).fields, items);
    assert Commits(reg, rows(1).fields, faults(1));
    PairAfter(t, reg, rows, faults, 2, 0, n);
  }
}

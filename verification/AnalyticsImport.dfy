/** The analytics import: sections, records and rows in nested loops, with the planned and written
    counters, and the commit at the end. */
module AnalyticsImport {
  import opened Documents
  import opened Collections
  import opened Upsert

  datatype Section = Projects | Validations | Findings | TokenUsage | AiUsage | Components | Dependencies | Readiness

  const SECTIONS: seq<Section> := [
    Projects, Validations, Findings, TokenUsage, AiUsage, Components, Dependencies, Readiness
  ]

  /** The table a section goes to; two sections lost theirs and build no rows. */
  function TargetTable(s: Section): Option<Table> {
    match s
    case Projects => Some(BusinessProjects)
    case Validations => Some(ValidationResults)
    case Findings => Some(SecurityEvents)
    case TokenUsage => Some(TokenUsageRecords)
    case AiUsage => Some(AiUsageRecords)
    case Readiness => Some(ReadinessEvents)
    case _ => None
  }

  datatype Skipped = NotAList(section: Section) | TablesMissing(section: Section) | NotAnObject(section: Section)

  /** A row a section handler built. */
  datatype Built = Built(table: Table, row: Cells)

  /** What the import works with: the tables that exist and their columns, what their constraints
      admit, and the section handlers, which turn a record into rows or raise. */
  datatype Setting = Setting(tables: set<Table>, columns: Table -> set<Column>, accepts: Item -> bool,
                             build: (Section, Fields) -> Option<seq<Built>>)

  predicate AllKeyed(rows: seq<Built>) {
    forall i :: 0 <= i < |rows| ==> KeyColumn(rows[i].table) in rows[i].row
  }

  /** Every table has its key column and every built row fills it. */
  ghost predicate KeysPresent(x: Setting) {
    && (forall t: Table :: KeyColumn(t) in x.columns(t))
    && (forall s: Section, f: Fields :: x.build(s, f).Some? ==> AllKeyed(x.build(s, f).value))
  }

  predicate TargetExists(x: Setting, s: Section) {
    TargetTable(s).None? || TargetTable(s).value in x.tables
  }

  // ---------------------------------------------------------------- the plan

  function RecordPlan(x: Setting, s: Section, record: Json): Option<seq<Built>> {
    if record.Obj? then x.build(s, record.fields) else Some([])
  }

  function Then<T>(a: Option<seq<T>>, b: Option<seq<T>>): Option<seq<T>> {
    if a.Some? && b.Some? then Some(a.value + b.value) else None
  }

  function RecordsPlan(x: Setting, s: Section, records: seq<Json>): Option<seq<Built>>
    decreases |records|
  {
    if records == [] then Some([])
    else Then(RecordsPlan(x, s, records[..|records| - 1]), RecordPlan(x, s, records[|records| - 1]))
  }

  /** `payload.get(section) or []` */
  function Given(payload: map<Section, Json>, s: Section): Json {
    if s in payload && Truthy(payload[s]) then payload[s] else Arr([])
  }

  function SectionPlan(x: Setting, payload: map<Section, Json>, s: Section): Option<seq<Built>> {
    var given := Given(payload, s);
    if given.Arr? && TargetExists(x, s) then RecordsPlan(x, s, given.items) else Some([])
  }

  /** The rows a payload stands for, in order; None if a handler raises.  It depends on the payload
      and the schema only, not on the data or on whether this is a dry run. */
  function Plan(x: Setting, payload: map<Section, Json>, sections: seq<Section>): Option<seq<Built>>
    decreases |sections|
  {
    if sections == [] then Some([])
    else Then(Plan(x, payload, sections[..|sections| - 1]), SectionPlan(x, payload, sections[|sections| - 1]))
  }

  // ---------------------------------------------------------------- what is skipped

  function RecordsSkipped(s: Section, records: seq<Json>): seq<Skipped> {
    if records == [] then []
    else RecordsSkipped(s, records[..|records| - 1]) + if records[|records| - 1].Obj? then [] else [NotAnObject(s)]
  }

  function SectionSkipped(x: Setting, payload: map<Section, Json>, s: Section): seq<Skipped> {
    var given := Given(payload, s);
    if !given.Arr? then [NotAList(s)]
    else if !TargetExists(x, s) then [TablesMissing(s)]
    else RecordsSkipped(s, given.items)
  }

  function AllSkipped(x: Setting, payload: map<Section, Json>, sections: seq<Section>): seq<Skipped> {
    if sections == [] then []
    else AllSkipped(x, payload, sections[..|sections| - 1]) + SectionSkipped(x, payload, sections[|sections| - 1])
  }

  lemma {:induction false} RecordsSkippedAre(s: Section, records: seq<Json>, k: Skipped)
    ensures k in RecordsSkipped(s, records) <==> k == NotAnObject(s) && exists r :: r in records && !r.Obj?
  {
    if records != [] {
      var init, last := records[..|records| - 1], records[|records| - 1];
      RecordsSkippedAre(s, init, k);
      assert records == init + [last];
    }
  }

  lemma {:induction false} SomeSectionSkips(x: Setting, payload: map<Section, Json>, sections: seq<Section>, k: Skipped)
    ensures k in AllSkipped(x, payload, sections) <==>
            exists s :: s in sections && k in SectionSkipped(x, payload, s)
  {
    if sections != [] {
      var init, last := sections[..|sections| - 1], sections[|sections| - 1];
      SomeSectionSkips(x, payload, init, k);
      assert sections == init + [last];
    }
  }

  /** The table a section needs; two sections lost theirs. */
  predicate TableThere(x: Setting, s: Section) {
    match s
    case Projects => BusinessProjects in x.tables
    case Validations => ValidationResults in x.tables
    case Findings => SecurityEvents in x.tables
    case TokenUsage => TokenUsageRecords in x.tables
    case AiUsage => AiUsageRecords in x.tables
    case Readiness => ReadinessEvents in x.tables
    case Components => true
    case Dependencies => true
  }

  lemma SectionSkips(x: Setting, payload: map<Section, Json>, s: Section, k: Skipped)
    ensures k in AllSkipped(x, payload, SECTIONS) && k.section == s <==> k in SectionSkipped(x, payload, s)
  {
    SomeSectionSkips(x, payload, SECTIONS, k);
    forall t ensures t in SECTIONS && (k in SectionSkipped(x, payload, t) ==> k.section == t) {
      InSections(t);
      var given := Given(payload, t);
      if given.Arr? {
        RecordsSkippedAre(t, given.items, k);
      }
    }
  }

  lemma InSections(s: Section)
    ensures s in SECTIONS
  {
    assert SECTIONS[0] == Projects && SECTIONS[1] == Validations && SECTIONS[2] == Findings && SECTIONS[3] == TokenUsage;
    assert SECTIONS[4] == AiUsage && SECTIONS[5] == Components && SECTIONS[6] == Dependencies;
    assert SECTIONS[7] == Readiness;
  }

  /** Why each of the eight sections is skipped, in whole or in part: something that is no list stands under
      it, or its table is missing, or a record of it is no object. */
  lemma SkippedAre(x: Setting, payload: map<Section, Json>, s: Section)
    ensures var skipped := AllSkipped(x, payload, SECTIONS);
            var odd := s in payload && Truthy(payload[s]) && !payload[s].Arr?;
            && (NotAList(s) in skipped <==> odd)
            && (TablesMissing(s) in skipped <==> !odd && !TableThere(x, s))
            && (NotAnObject(s) in skipped <==>
                s in payload && payload[s].Arr? && TableThere(x, s) && exists r :: r in payload[s].items && !r.Obj?)
  {
    SectionSkips(x, payload, s, NotAList(s));
    SectionSkips(x, payload, s, TablesMissing(s));
    SectionSkips(x, payload, s, NotAnObject(s));
    var given := Given(payload, s);
    assert TableThere(x, s) <==> TargetExists(x, s);
    if given.Arr? {
      RecordsSkippedAre(s, given.items, NotAList(s));
      RecordsSkippedAre(s, given.items, TablesMissing(s));
      RecordsSkippedAre(s, given.items, NotAnObject(s));
    }
  }

  // ---------------------------------------------------------------- counting

  function ItemOf(x: Setting, b: Built): Item { Filtered(x.columns(b.table), b.table, b.row) }

  /** A count per table; a table that is not there counts zero. */
  type Counter = map<Table, nat>

  function Count(c: Counter, t: Table): nat { if t in c then c[t] else 0 }

  function Bump(c: Counter, t: Table): Counter { c[t := Count(c, t) + 1] }

  function Tally(rows: seq<Built>): Counter {
    if rows == [] then map[] else Bump(Tally(rows[..|rows| - 1]), rows[|rows| - 1].table)
  }

  function RowsFor(rows: seq<Built>, t: Table): set<int> {
    set i | 0 <= i < |rows| && rows[i].table == t
  }

  lemma RowsForNext(rows: seq<Built>, b: Built, t: Table)
    ensures |RowsFor(rows + [b], t)| == |RowsFor(rows, t)| + if b.table == t then 1 else 0
  {
    var longer, some, more := rows + [b], RowsFor(rows, t), RowsFor(rows + [b], t);
    forall i ensures i in more <==> i in some || (i == |rows| && b.table == t) {
      assert 0 <= i < |rows| ==> longer[i] == rows[i];
    }
    assert |rows| !in some;
    assert more == if b.table == t then some + {|rows|} else some;
  }

  /** The tally of a table is the number of its rows. */
  lemma {:induction false} TallyCounts(rows: seq<Built>, t: Table)
    ensures Count(Tally(rows), t) == |RowsFor(rows, t)|
  {
    if rows != [] {
      TallyCounts(rows[..|rows| - 1], t);
      RowsForNext(rows[..|rows| - 1], rows[|rows| - 1], t);
      assert rows[..|rows| - 1] + [rows[|rows| - 1]] == rows;
    }
  }

  lemma TallyNext(rows: seq<Built>, b: Built)
    ensures Tally(rows + [b]) == Bump(Tally(rows), b.table)
  {
    assert (rows + [b])[..|rows|] == rows;
  }

  // ---------------------------------------------------------------- running the plan

  /** The rows go into the database one by one, or one of them raises. */
  function Outcome(x: Setting, db: Database, rows: seq<Built>): Option<Database>
    decreases |rows|
  {
    if rows == [] then Some(db)
    else OneMore(x, Outcome(x, db, rows[..|rows| - 1]), rows[|rows| - 1])
  }

  function OneMore(x: Setting, d: Option<Database>, b: Built): Option<Database> {
    if d.None? then None else Upserted(d.value, ItemOf(x, b), x.accepts)
  }

  lemma OutcomeNext(x: Setting, db: Database, rows: seq<Built>, b: Built)
    ensures Outcome(x, db, rows + [b]) == OneMore(x, Outcome(x, db, rows), b)
  {
    assert (rows + [b])[..|rows|] == rows;
  }

  function Items(x: Setting, rows: seq<Built>): seq<Item> {
    if rows == [] then [] else Items(x, rows[..|rows| - 1]) + [ItemOf(x, rows[|rows| - 1])]
  }

  lemma {:induction false} OutcomeIsUpserts(x: Setting, db: Database, rows: seq<Built>)
    ensures Outcome(x, db, rows) == UpsertAll(db, Items(x, rows), x.accepts)
    decreases |rows|
  {
    if rows != [] {
      OutcomeIsUpserts(x, db, rows[..|rows| - 1]);
      var items := Items(x, rows[..|rows| - 1]);
      assert (items + [ItemOf(x, rows[|rows| - 1])])[..|items|] == items;
    }
  }

  /** Once a row has raised, nothing after it brings the run back. */
  lemma {:induction false} RaisedStays(x: Setting, db: Database, rows: seq<Built>, more: seq<Built>)
    requires Outcome(x, db, rows).None?
    ensures Outcome(x, db, rows + more).None?
    decreases |more|
  {
    if more == [] {
      assert rows + more == rows;
    } else {
      var init, b := more[..|more| - 1], more[|more| - 1];
      assert rows + more == rows + init + [b];
      OutcomeNext(x, db, rows + init, b);
      RaisedStays(x, db, rows, init);
    }
  }

  /** One import under way: the open transaction and the counters. */
  class Import {
    const x: Setting
    const execute: bool
    ghost const start: Database
    ghost var done: seq<Built>
    var work: Database
    var planned: Counter
    var written: Counter
    var skipped: seq<Skipped>

    /** The counters and the transaction reflect the rows done so far. */
    ghost predicate Valid()
      reads this
    {
      && planned == Tally(done) && written == (if execute then planned else map[])
      && (if execute then Outcome(x, start, done) == Some(work) else work == start)
    }

    constructor (x: Setting, execute: bool, db: Database)
      ensures Valid() && this.x == x && this.execute == execute && start == db && done == [] && skipped == []
    {
      this.x, this.execute, this.start := x, execute, db;
      done, work := [], db;
      planned, written, skipped := map[], map[], [];
    }

    method Upsert(item: Item) returns (ok: bool)
      modifies this`work
      ensures Upserted(old(work), item, x.accepts) == if ok then Some(work) else None
      ensures ok ==> forall p :: EndsAs(old(work), [item], x.accepts, work, p)
      ensures !ok <==> && item.cells != map[]
                       && (|| (exists c :: c in item.cells && (item.cells[c].Arr? || item.cells[c].Obj?))
                           || (!item.table.SecurityEvents? && !item.table.ReadinessEvents? && !x.accepts(item))
                           || (BareKey(item) && Place(item.table, item.id) in old(work)))
    {
      OneUpsertEnds(work, item, x.accepts);
      UpsertRaises(work, item, x.accepts);
      ok := true;
      var p := PlaceOf(item);
      if item.cells == map[] {
        return;
      }
      if !Bindable(item.cells) {
        return false;
      }
      if AppendOnly(item.table) {
        if p !in work && x.accepts(item) {
          work := work[p := item.cells];
        }
        return;
      }
      if !x.accepts(item) {
        return false;
      }
      if p in work {
        if !Updates(item) {
          return false;
        }
        work := work[p := work[p] + item.cells];
      } else {
        work := work[p := item.cells];
      }
    }

    /** The run has done exactly this plan, or the plan raises and so has the run. */
    ghost predicate Ran(plan: Option<seq<Built>>, ok: bool)
      reads this
    {
      if ok then Valid() && plan == Some(done) else !Feasible(x, start, execute, plan)
    }

    method IngestRow(b: Built) returns (ok: bool)
      requires Valid()
      modifies this`done, this`work, this`planned, this`written
      ensures Ran(Some(old(done) + [b]), ok)
    {
      OutcomeNext(x, start, done, b);
      TallyNext(done, b);
      planned := Bump(planned, b.table);
      ok := true;
      if execute {
        ok := Upsert(ItemOf(x, b));
        if ok {
          written := Bump(written, b.table);
        }
      }
      done := done + [b];
    }

    method IngestRows(rows: seq<Built>) returns (ok: bool)
      requires Valid()
      modifies this`done, this`work, this`planned, this`written
      ensures Ran(Some(old(done) + rows), ok)
    {
      ghost var before := done;
      var k := 0;
      while k < |rows|
        invariant 0 <= k <= |rows| && Valid() && done == before + rows[..k]
      {
        assert before + rows[..k + 1] == before + rows[..k] + [rows[k]];
        assert before + rows == before + rows[..k + 1] + rows[k + 1..];
        ok := IngestRow(rows[k]);
        if !ok {
          InfeasibleStays(x, start, execute, Some(before + rows[..k + 1]), Some(rows[k + 1..]));
          return;
        }
        k := k + 1;
      }
      assert rows[..k] == rows;
      ok := true;
    }

    method IngestRecord(section: Section, record: Json) returns (ok: bool)
      requires Valid()
      modifies this`done, this`work, this`planned, this`written, this`skipped
      ensures Ran(Then(Some(old(done)), RecordPlan(x, section, record)), ok)
      ensures skipped == old(skipped) + if record.Obj? then [] else [NotAnObject(section)]
    {
      if !record.Obj? {
        skipped := skipped + [NotAnObject(section)];
        assert done + [] == done;
        return true;
      }
      var rows := x.build(section, record.fields);
      if rows.None? {
        return false;
      }
      ok := IngestRows(rows.value);
    }

    method IngestRecords(section: Section, records: seq<Json>) returns (ok: bool)
      requires Valid()
      modifies this`done, this`work, this`planned, this`written, this`skipped
      ensures Ran(Then(Some(old(done)), RecordsPlan(x, section, records)), ok)
      ensures ok ==> skipped == old(skipped) + RecordsSkipped(section, records)
    {
      ghost var before, skips := done, skipped;
      var k := 0;
      assert before + [] == before && skips + [] == skips;
      while k < |records|
        invariant 0 <= k <= |records| && Ran(Then(Some(before), RecordsPlan(x, section, records[..k])), true)
        invariant skipped == skips + RecordsSkipped(section, records[..k])
      {
        RecordsNext(x, section, records, k, before);
        SkippedNext(section, records, k, skips);
        ok := IngestRecord(section, records[k]);
        if !ok {
          RecordsStay(x, start, execute, section, records, k + 1, before);
          return;
        }
        k := k + 1;
      }
      assert records[..k] == records;
      ok := true;
    }

    method IngestSection(payload: map<Section, Json>, section: Section) returns (ok: bool)
      requires Valid()
      modifies this`done, this`work, this`planned, this`written, this`skipped
      ensures Ran(Then(Some(old(done)), SectionPlan(x, payload, section)), ok)
      ensures ok ==> skipped == old(skipped) + SectionSkipped(x, payload, section)
    {
      var records := Given(payload, section);
      assert done + [] == done;
      if !records.Arr? {
        skipped := skipped + [NotAList(section)];
        return true;
      }
      if !TargetExists(x, section) {
        skipped := skipped + [TablesMissing(section)];
        return true;
      }
      ok := IngestRecords(section, records.items);
    }

    method IngestSections(payload: map<Section, Json>, sections: seq<Section>) returns (ok: bool)
      requires Valid() && done == [] && skipped == []
      modifies this`done, this`work, this`planned, this`written, this`skipped
      ensures Ran(Plan(x, payload, sections), ok)
      ensures ok ==> skipped == AllSkipped(x, payload, sections)
    {
      var k := 0;
      while k < |sections|
        invariant 0 <= k <= |sections| && Ran(Plan(x, payload, sections[..k]), true)
        invariant skipped == AllSkipped(x, payload, sections[..k])
      {
        SectionsNext(x, payload, sections, k);
        ok := IngestSection(payload, sections[k]);
        if !ok {
          SectionsStay(x, start, execute, payload, sections, k + 1);
          return;
        }
        k := k + 1;
      }
      assert sections[..k] == sections;
      ok := true;
    }
  }

  // ---------------------------------------------------------------- plans that raise

  /** No handler raises and, if this is not a dry run, no row does. */
  predicate Feasible(x: Setting, db: Database, execute: bool, plan: Option<seq<Built>>) {
    plan.Some? && (execute ==> Outcome(x, db, plan.value).Some?)
  }

  lemma InfeasibleStays(x: Setting, db: Database, execute: bool, a: Option<seq<Built>>, b: Option<seq<Built>>)
    requires !Feasible(x, db, execute, a)
    ensures !Feasible(x, db, execute, Then(a, b))
  {
    if a.Some? && b.Some? {
      RaisedStays(x, db, a.value, b.value);
    }
  }

  lemma RecordsNext(x: Setting, section: Section, records: seq<Json>, k: nat, before: seq<Built>)
    requires k < |records|
    ensures Then(Some(before), RecordsPlan(x, section, records[..k + 1]))
         == Then(Then(Some(before), RecordsPlan(x, section, records[..k])), RecordPlan(x, section, records[k]))
  {
    assert records[..k + 1][..k] == records[..k];
    var p, q := RecordsPlan(x, section, records[..k]), RecordPlan(x, section, records[k]);
    if p.Some? && q.Some? {
      assert before + (p.value + q.value) == before + p.value + q.value;
    }
  }

  lemma SkippedNext(section: Section, records: seq<Json>, k: nat, skips: seq<Skipped>)
    requires k < |records|
    ensures skips + RecordsSkipped(section, records[..k + 1])
         == skips + RecordsSkipped(section, records[..k]) + if records[k].Obj? then [] else [NotAnObject(section)]
  {
    assert records[..k + 1][..k] == records[..k];
  }

  lemma {:induction false} RecordsStay(x: Setting, db: Database, execute: bool, section: Section, records: seq<Json>,
                                       k: nat,
                                       before: seq<Built>)
    requires k <= |records| && !Feasible(x, db, execute, Then(Some(before), RecordsPlan(x, section, records[..k])))
    ensures !Feasible(x, db, execute, Then(Some(before), RecordsPlan(x, section, records)))
    decreases |records| - k
  {
    if k == |records| {
      assert records[..k] == records;
    } else {
      RecordsNext(x, section, records, k, before);
      InfeasibleStays(x, db, execute, Then(Some(before), RecordsPlan(x, section, records[..k])),
                      RecordPlan(x, section, records[k]));
      RecordsStay(x, db, execute, section, records, k + 1, before);
    }
  }

  lemma SectionsNext(x: Setting, payload: map<Section, Json>, sections: seq<Section>, k: nat)
    requires k < |sections|
    ensures Plan(x, payload, sections[..k + 1])
         == Then(Plan(x, payload, sections[..k]), SectionPlan(x, payload, sections[k]))
    ensures AllSkipped(x, payload, sections[..k + 1])
         == AllSkipped(x, payload, sections[..k]) + SectionSkipped(x, payload, sections[k])
  {
    assert sections[..k + 1][..k] == sections[..k];
  }

  lemma {:induction false} SectionsStay(x: Setting, db: Database, execute: bool, payload: map<Section, Json>,
                                        sections: seq<Section>, k: nat)
    requires k <= |sections| && !Feasible(x, db, execute, Plan(x, payload, sections[..k]))
    ensures !Feasible(x, db, execute, Plan(x, payload, sections))
    decreases |sections| - k
  {
    if k == |sections| {
      assert sections[..k] == sections;
    } else {
      assert sections[..k + 1][..k] == sections[..k];
      InfeasibleStays(x, db, execute, Plan(x, payload, sections[..k]), SectionPlan(x, payload, sections[k]));
      SectionsStay(x, db, execute, payload, sections, k + 1);
    }
  }

  // ---------------------------------------------------------------- the authority

  datatype Report = Raised | Report(planned: Counter, written: Counter, skipped: seq<Skipped>)

  class Authority {
    var db: Database

    /** Import a payload.  A dry run and the real run plan the same rows; the real run writes exactly
        what it planned; whatever raises, nothing is committed. */
    method IngestAnalyticsPayload(x: Setting, payload: map<Section, Json>, execute: bool) returns (r: Report)
      requires KeysPresent(x)
      modifies this
      ensures var plan := Plan(x, payload, SECTIONS);
              && (r.Report? <==> Feasible(x, old(db), execute, plan))
              && (r.Report? ==> r.planned == Tally(plan.value) && r.written == (if execute then r.planned else map[]))
              && (r.Report? ==> r.skipped == AllSkipped(x, payload, SECTIONS))
              && (if r.Report? && execute then Outcome(x, old(db), plan.value) == Some(db) else db == old(db))
              && (r.Report? && execute ==>
                    forall p :: EndsAs(old(db), Items(x, plan.value), x.accepts, db, p))
    {
      ghost var plan := Plan(x, payload, SECTIONS);
      if Feasible(x, db, true, plan) {
        OutcomeEnds(x, db, plan.value);
      }
      var run := new Import(x, execute, db);
      var ok := run.IngestSections(payload, SECTIONS);
      if !ok {
        return Raised;
      }
      if execute {
        db := run.work;
      }
      r := Report(run.planned, run.written, run.skipped);
    }
  }

  /** What the rows of an import leave at every key. */
  lemma OutcomeEnds(x: Setting, db: Database, rows: seq<Built>)
    requires Outcome(x, db, rows).Some?
    ensures forall p :: EndsAs(db, Items(x, rows), x.accepts, Outcome(x, db, rows).value, p)
  {
    OutcomeIsUpserts(x, db, rows);
    forall p ensures EndsAs(db, Items(x, rows), x.accepts, Outcome(x, db, rows).value, p) {
      FinalRow(db, Items(x, rows), p, x.accepts);
    }
  }

  /** Importing the same payload again changes nothing, and counts the same rows. */
  lemma ImportTwice(x: Setting, db: Database, rows: seq<Built>)
    requires Outcome(x, db, rows).Some?
    ensures var once := Outcome(x, db, rows);
            var twice := Outcome(x, once.value, rows);
            (twice.Some? <==> NoBareKeys(Items(x, rows))) && (twice.Some? ==> twice == once)
  {
    OutcomeIsUpserts(x, db, rows);
    OutcomeIsUpserts(x, Outcome(x, db, rows).value, rows);
    ReplayIdempotent(db, Items(x, rows), x.accepts);
  }
}

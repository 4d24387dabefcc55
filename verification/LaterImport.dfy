/** Importing the same payload again at a later time, when the payload does not say when it was made. */
module LaterImport {
  import opened Collections
  import opened Documents
  import opened Upsert
  import opened AnalyticsImport
  import opened SectionHandlers

  /** The columns that take the time of ingestion. */
  predicate Clocked(c: Column) { c == "created_at" || c == "updated_at" }

  /** The same row, apart from times. */
  predicate SameButTimes(a: Cells, b: Cells) {
    a.Keys == b.Keys && forall c :: c in a ==> a[c] == b[c] || (Clocked(c) && a[c].Str? && b[c].Str?)
  }

  predicate AlikeDatabases(a: Database, b: Database) {
    a.Keys == b.Keys && forall p :: p in a ==> SameButTimes(a[p], b[p])
  }

  predicate AlikeItems(i: Item, j: Item) { PlaceOf(i) == PlaceOf(j) && SameButTimes(i.cells, j.cells) }

  /** No constraint of a table looks at the value of a time. */
  ghost predicate TimesFree(accepts: Item -> bool) {
    forall i, j :: AlikeItems(i, j) ==> accepts(i) == accepts(j)
  }

  lemma UpsertedAlike(a: Database, b: Database, i: Item, j: Item, accepts: Item -> bool)
    requires AlikeDatabases(a, b) && AlikeItems(i, j) && TimesFree(accepts)
    ensures Upserted(a, i, accepts).Some? <==> Upserted(b, j, accepts).Some?
    ensures Upserted(a, i, accepts).Some? ==>
              AlikeDatabases(Upserted(a, i, accepts).value, Upserted(b, j, accepts).value)
  {
    assert accepts(i) == accepts(j) && i.cells.Keys == j.cells.Keys;
    assert Bindable(i.cells) <==> Bindable(j.cells);
    assert i.cells == map[] <==> j.cells == map[];
    assert Updates(i) <==> Updates(j) by {
      if c :| c in i.cells && c != KeyColumn(i.table) {
        assert c in j.cells;
      }
      if c :| c in j.cells && c != KeyColumn(j.table) {
        assert c in i.cells;
      }
    }
  }

  // ---------------------------------------------------------------- rows and plans

  predicate AlikeBuilt(a: Built, b: Built) { a.table == b.table && SameButTimes(a.row, b.row) }

  predicate AlikeRows(a: seq<Built>, b: seq<Built>) {
    |a| == |b| && forall i :: 0 <= i < |a| ==> AlikeBuilt(a[i], b[i])
  }

  predicate AlikePlans(a: Option<seq<Built>>, b: Option<seq<Built>>) {
    a.Some? == b.Some? && (a.Some? ==> AlikeRows(a.value, b.value))
  }

  lemma ItemsAlike(x: Setting, a: Built, b: Built)
    requires AlikeBuilt(a, b)
    ensures AlikeItems(ItemOf(x, a), ItemOf(x, b))
  {
    assert KeyColumn(a.table)[0] != "created_at"[0] && KeyColumn(a.table)[1] != "updated_at"[1];
  }

  lemma {:induction false} OutcomesAlike(x: Setting, c: Database, d: Database, a: seq<Built>, b: seq<Built>)
    requires AlikeDatabases(c, d) && AlikeRows(a, b) && TimesFree(x.accepts)
    ensures Outcome(x, c, a).Some? <==> Outcome(x, d, b).Some?
    ensures Outcome(x, c, a).Some? ==> AlikeDatabases(Outcome(x, c, a).value, Outcome(x, d, b).value)
    decreases |a|
  {
    if a != [] {
      var k := |a| - 1;
      OutcomesAlike(x, c, d, a[..k], b[..k]);
      ItemsAlike(x, a[k], b[k]);
      if Outcome(x, c, a[..k]).Some? {
        UpsertedAlike(Outcome(x, c, a[..k]).value, Outcome(x, d, b[..k]).value, ItemOf(x, a[k]), ItemOf(x, b[k]),
                      x.accepts);
      }
    }
  }

  lemma ThenAlike(a: Option<seq<Built>>, b: Option<seq<Built>>, c: Option<seq<Built>>, d: Option<seq<Built>>)
    requires AlikePlans(a, b) && AlikePlans(c, d)
    ensures AlikePlans(Then(a, c), Then(b, d))
  {
  }

  // ---------------------------------------------------------------- the handlers at two times

  /** The same references, ingested at two times. */
  predicate TwoTimes(g: Given, h: Given) {
    h == g.(ingestedAt := h.ingestedAt) && g.ingestedAt.Str? && h.ingestedAt.Str?
  }

  /** Rows built alike but for the time of creation. */
  lemma RowAlike(t: Table, others: Cells, id: Json, r: Fields, g: Given, h: Given)
    requires TwoTimes(g, h)
    ensures AlikeBuilt(Row(t, others, id, CreatedAt(r, g)), Row(t, others, id, CreatedAt(r, h)))
  {
  }

  lemma AnyRowAlike(r: Fields, g: Given, h: Given)
    requires TwoTimes(g, h)
    ensures forall t, others, id {:trigger Row(t, others, id, CreatedAt(r, g))} ::
              AlikeBuilt(Row(t, others, id, CreatedAt(r, g)), Row(t, others, id, CreatedAt(r, h)))
  {
    forall t, others, id
      ensures AlikeBuilt(Row(t, others, id, CreatedAt(r, g)), Row(t, others, id, CreatedAt(r, h)))
    {
      RowAlike(t, others, id, r, g, h);
    }
  }

  lemma ControlAlike(lib: Library, control: Fields, g: Given, h: Given, p: Json, a: Json)
    requires TwoTimes(g, h)
    ensures AlikeBuilt(ControlRow(lib, control, g, p, a), ControlRow(lib, control, h, p, a))
  {
    AnyRowAlike(control, g, h);
  }

  lemma {:induction false} ControlRowsAlike(lib: Library, controls: seq<Json>, g: Given, h: Given, p: Json, a: Json)
    requires TwoTimes(g, h)
    ensures AlikeRows(ControlRows(lib, controls, g, p, a), ControlRows(lib, controls, h, p, a))
    decreases |controls|
  {
    if controls != [] {
      var init, last := controls[..|controls| - 1], controls[|controls| - 1];
      ControlRowsAlike(lib, init, g, h, p, a);
      if last.Obj? {
        ControlAlike(lib, last.fields, g, h, p, a);
      }
    }
  }

  lemma AssessmentAlike(lib: Library, r: Fields, g: Given, h: Given, p: Json, id: Json)
    requires TwoTimes(g, h)
    ensures AlikeBuilt(AssessmentRow(lib, r, g, p, id), AssessmentRow(lib, r, h, p, id))
  {
    AnyRowAlike(r, g, h);
  }

  lemma AlikeFirst(a: Built, b: Built, c: seq<Built>, d: seq<Built>)
    requires AlikeBuilt(a, b) && AlikeRows(c, d)
    ensures AlikeRows([a] + c, [b] + d)
  {
  }

  lemma ReadinessAlike(lib: Library, g: Given, h: Given, r: Fields)
    requires TwoTimes(g, h)
    ensures AlikePlans(ReadinessRows(lib, r, g), ReadinessRows(lib, r, h))
  {
    if Required(lib, r, ProjectId).Some? && Controls(r).Some? {
      var p, id := Required(lib, r, ProjectId).value, AssessmentId(lib, r);
      ControlRowsAlike(lib, Controls(r).value, g, h, p, id);
      AssessmentAlike(lib, r, g, h, p, id);
      AlikeFirst(AssessmentRow(lib, r, g, p, id), AssessmentRow(lib, r, h, p, id),
                 ControlRows(lib, Controls(r).value, g, p, id), ControlRows(lib, Controls(r).value, h, p, id));
    }
  }

  /** A project also takes the time of its update. */
  lemma UpdatedRowAlike(t: Table, cells: Cells, id: Json, c: Json, d: Json, u: Json, v: Json)
    requires u.Str? && v.Str? && (c == d || (c.Str? && d.Str?))
    ensures AlikeBuilt(Row(t, cells + map["updated_at" := u], id, c), Row(t, cells + map["updated_at" := v], id, d))
  {
  }

  lemma ProjectRowsAlike(lib: Library, g: Given, h: Given, r: Fields)
    requires TwoTimes(g, h)
    ensures AlikePlans(ProjectRows(lib, r, g), ProjectRows(lib, r, h))
  {
    var id, cells := Required(lib, r, ProjectId), ProjectCells(lib, r);
    if id.Some? && cells.Some? {
      UpdatedRowAlike(BusinessProjects, cells.value, id.value, CreatedAt(r, g), CreatedAt(r, h), g.ingestedAt,
                      h.ingestedAt);
    }
  }

  lemma ValidationRowsAlike(lib: Library, g: Given, h: Given, r: Fields)
    requires TwoTimes(g, h)
    ensures AlikePlans(ValidationRows(lib, r, g), ValidationRows(lib, r, h))
  {
    AnyRowAlike(r, g, h);
  }

  lemma FindingRowsAlike(lib: Library, g: Given, h: Given, r: Fields)
    requires TwoTimes(g, h)
    ensures AlikePlans(FindingRows(lib, r, g), FindingRows(lib, r, h))
  {
    AnyRowAlike(r, g, h);
  }

  lemma TokenUsageRowsAlike(lib: Library, g: Given, h: Given, r: Fields)
    requires TwoTimes(g, h)
    ensures AlikePlans(TokenUsageRows(lib, r, g), TokenUsageRows(lib, r, h))
  {
    AnyRowAlike(r, g, h);
  }

  lemma AiUsageRowsAlike(lib: Library, g: Given, h: Given, r: Fields)
    requires TwoTimes(g, h)
    ensures AlikePlans(AiUsageRows(lib, r, g), AiUsageRows(lib, r, h))
  {
    AnyRowAlike(r, g, h);
  }

  lemma HandlersAlike(lib: Library, g: Given, h: Given, s: Section, r: Fields)
    requires TwoTimes(g, h)
    ensures AlikePlans(Handler(lib, g)(s, r), Handler(lib, h)(s, r))
  {
    match s
    case Projects => ProjectRowsAlike(lib, g, h, r);
    case Validations => ValidationRowsAlike(lib, g, h, r);
    case Findings => FindingRowsAlike(lib, g, h, r);
    case TokenUsage => TokenUsageRowsAlike(lib, g, h, r);
    case AiUsage => AiUsageRowsAlike(lib, g, h, r);
    case Components =>
    case Dependencies =>
    case Readiness => ReadinessAlike(lib, g, h, r);
  }

  lemma {:induction false} RecordsAlike(x: Setting, y: Setting, lib: Library, g: Given, h: Given, s: Section,
                                        records: seq<Json>)
    requires TwoTimes(g, h) && x.build == Handler(lib, g) && y.build == Handler(lib, h)
    ensures AlikePlans(RecordsPlan(x, s, records), RecordsPlan(y, s, records))
    decreases |records|
  {
    if records != [] {
      var init, last := records[..|records| - 1], records[|records| - 1];
      RecordsAlike(x, y, lib, g, h, s, init);
      if last.Obj? {
        HandlersAlike(lib, g, h, s, last.fields);
      }
      ThenAlike(RecordsPlan(x, s, init), RecordsPlan(y, s, init), RecordPlan(x, s, last), RecordPlan(y, s, last));
    }
  }

  lemma {:induction false} PlansAlike(x: Setting, y: Setting, lib: Library, g: Given, h: Given,
                                      payload: map<Section, Json>, sections: seq<Section>)
    requires TwoTimes(g, h) && x.build == Handler(lib, g) && y == x.(build := Handler(lib, h))
    ensures AlikePlans(Plan(x, payload, sections), Plan(y, payload, sections))
    decreases |sections|
  {
    if sections != [] {
      var init, last := sections[..|sections| - 1], sections[|sections| - 1];
      PlansAlike(x, y, lib, g, h, payload, init);
      var given := AnalyticsImport.Given(payload, last);
      if given.Arr? {
        RecordsAlike(x, y, lib, g, h, last, given.items);
      }
      ThenAlike(Plan(x, payload, init), Plan(y, payload, init), SectionPlan(x, payload, last),
                SectionPlan(y, payload, last));
    }
  }

  lemma {:induction false} OutcomeIgnoresHandlers(x: Setting, y: Setting, db: Database, rows: seq<Built>)
    requires y == x.(build := y.build)
    ensures Outcome(y, db, rows) == Outcome(x, db, rows)
    decreases |rows|
  {
    if rows != [] {
      OutcomeIgnoresHandlers(x, y, db, rows[..|rows| - 1]);
    }
  }

  /** A payload that went through goes through again at any later time, and the second import changes
      nothing but times. */
  lemma ChangesOnlyTimes(x: Setting, y: Setting, lib: Library, g: Given, h: Given, payload: map<Section, Json>,
                         db: Database)
    requires x.build == Handler(lib, g) && y == x.(build := Handler(lib, h)) && TwoTimes(g, h)
    requires Schema(x) && TimesFree(x.accepts) && Feasible(x, db, true, Plan(x, payload, SECTIONS))
    ensures var once := Outcome(x, db, Plan(x, payload, SECTIONS).value).value;
            var later := Plan(y, payload, SECTIONS);
            Feasible(y, once, true, later) && AlikeDatabases(once, Outcome(y, once, later.value).value)
  {
    var rows := Plan(x, payload, SECTIONS).value;
    var once := Outcome(x, db, rows).value;
    PayloadIdempotent(x, lib, g, payload, db);
    PlansAlike(x, y, lib, g, h, payload, SECTIONS);
    var later := Plan(y, payload, SECTIONS).value;
    assert AlikeDatabases(once, once);
    OutcomesAlike(x, once, once, rows, later);
    OutcomeIgnoresHandlers(x, y, once, later);
  }
}

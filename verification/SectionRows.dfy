/** What findings and validations leave in their tables, in terms of the records they come from, and what
    the usage rows make of costs. */
module SectionRows {
  import opened Collections
  import opened Documents
  import opened Upsert
  import opened AnalyticsImport
  import opened SectionHandlers

  predicate Holds(cells: Cells, c: Column, v: Json) { c in cells && cells[c] == v }

  function Value(r: Fields, k: Key): Json { if k in r then r[k] else Null }

  /** The value under a key, or a default where it is empty. */
  function Filled(r: Fields, k: Key, default: Json): Json { if Truthy(Value(r, k)) then r[k] else default }

  /** The same for two keys, one after the other. */
  function Filled2(r: Fields, a: Key, b: Key, default: Json): Json {
    if Truthy(Value(r, a)) then r[a] else Filled(r, b, default)
  }

  // ---------------------------------------------------------------- findings

  /** What the columns of a finding hold, apart from its text. */
  predicate FindingValues(lib: Library, r: Fields, row: Cells) {
    && Truthy(Value(r, ProjectId)) && Holds(row, "project_id", Str(lib.text(r[ProjectId])))
    && Holds(row, "event_kind", Str("finding.recorded")) && Holds(row, "work_order_id", Value(r, WorkOrderId))
    && Holds(row, "severity", Filled(r, Severity, Str("unknown")))
    && Holds(row, "vuln_class", Filled2(r, Named("category"), Named("control_family"), Str("imported")))
    && Holds(row, "file_path", Value(r, Named("file_path")))
    && Holds(row, "line_number", Filled(r, Named("line"), Value(r, Named("start_line"))))
    && Holds(row, "title", Filled(r, Named("rule_id"),
                                  Filled2(r, Named("control_id"), Named("category"), Str("analytics_import"))))
  }

  lemma FindingCellsSay(lib: Library, r: Fields)
    requires FindingCells(lib, r).Some?
    ensures FindingValues(lib, r, FindingCells(lib, r).value)
  {
  }

  /** A row keeps its other columns. */
  lemma RowKeeps(t: Table, others: Cells, id: Json, at: Json, c: Column, v: Json)
    requires Holds(others, c, v) && c != KeyColumn(t) && c != "created_at"
    ensures Holds(Row(t, others, id, at).row, c, v)
  {
  }

  lemma RowStamped(t: Table, others: Cells, id: Json, at: Json)
    ensures Holds(Row(t, others, id, at).row, "created_at", at) && Holds(Row(t, others, id, at).row, KeyColumn(t), id)
  {
    assert KeyColumn(t)[0] != "created_at"[0];
  }

  lemma FindingKeeps(lib: Library, r: Fields, cells: Cells, id: Json, at: Json)
    requires FindingValues(lib, r, cells)
    ensures FindingValues(lib, r, Row(SecurityEvents, cells, id, at).row)
  {
    forall c, v | Holds(cells, c, v) && c != "event_id" && c != "created_at"
      ensures Holds(Row(SecurityEvents, cells, id, at).row, c, v)
    {
      RowKeeps(SecurityEvents, cells, id, at, c, v);
    }
  }

  /** A record under findings becomes one row, of the security events. */
  lemma FindingSays(lib: Library, r: Fields, g: Given)
    requires FindingRows(lib, r, g).Some?
    ensures var rows := FindingRows(lib, r, g).value;
            && |rows| == 1 && rows[0].table == SecurityEvents && FindingValues(lib, r, rows[0].row)
            && Holds(rows[0].row, "event_id", Filled(r, Named("finding_id"), Str("security-" + lib.digest(r))))
            && Holds(rows[0].row, "created_at", Filled(r, Named("created_at"), g.ingestedAt))
  {
    FindingCellsSay(lib, r);
    FindingRowSays(lib, r, g, FindingCells(lib, r).value);
  }

  lemma FindingRowSays(lib: Library, r: Fields, g: Given, cells: Cells)
    requires FindingValues(lib, r, cells)
    ensures var id := OrElse(r, Named("finding_id"), StableId(lib, "security", r));
            var row := Row(SecurityEvents, cells, id, CreatedAt(r, g)).row;
            && FindingValues(lib, r, row)
            && Holds(row, "event_id", Filled(r, Named("finding_id"), Str("security-" + lib.digest(r))))
            && Holds(row, "created_at", Filled(r, Named("created_at"), g.ingestedAt))
  {
    var id, at := OrElse(r, Named("finding_id"), StableId(lib, "security", r)), CreatedAt(r, g);
    FindingKeeps(lib, r, cells, id, at);
    RowStamped(SecurityEvents, cells, id, at);
    assert "security" + "-" + lib.digest(r) == "security-" + lib.digest(r);
  }

  // ---------------------------------------------------------------- validations

  predicate ValidationValues(lib: Library, r: Fields, refs: seq<Json>, row: Cells) {
    && Truthy(Value(r, ProjectId)) && Holds(row, "project_id", Str(lib.text(r[ProjectId])))
    && Holds(row, "milestone_id", Value(r, MilestoneId)) && Holds(row, "task_id", Value(r, TaskId))
    && Holds(row, "process_run_id", Value(r, Named("process_run_id"))) && Holds(row, "event_id", Value(r, EventId))
    && Holds(row, "validation_type", Filled(r, Named("validation_type"), Str("analytics_import")))
    && Holds(row, "status", Filled(r, Named("status"), Str("unknown")))
    && Holds(row, "command", Value(r, Named("command"))) && Holds(row, "scope", Value(r, Named("scope")))
    && Holds(row, "summary", Value(r, Named("summary")))
    && Merges(lib, row, "evidence_refs_json", refs, Value(r, Named("evidence_refs")))
  }

  /** The column holds the references of the payload and then the record's own, one or a list of them, without
      duplicates, as text. */
  predicate Merges(lib: Library, row: Cells, c: Column, refs: seq<Json>, own: Json) {
    var all := lib.unique(refs + if own == Null then [] else if own.Arr? then own.items else [own]);
    all.Some? && Holds(row, c, Str(lib.encode(Arr(all.value))))
  }

  lemma ValidationCellsSay(lib: Library, r: Fields, refs: seq<Json>)
    requires ValidationCells(lib, r, refs).Some?
    ensures ValidationValues(lib, r, refs, ValidationCells(lib, r, refs).value)
  {
  }

  lemma ValidationKeeps(lib: Library, r: Fields, refs: seq<Json>, cells: Cells, id: Json, at: Json)
    requires ValidationValues(lib, r, refs, cells)
    ensures ValidationValues(lib, r, refs, Row(ValidationResults, cells, id, at).row)
  {
    forall c, v | Holds(cells, c, v) && c != "validation_id" && c != "created_at"
      ensures Holds(Row(ValidationResults, cells, id, at).row, c, v)
    {
      RowKeeps(ValidationResults, cells, id, at, c, v);
    }
  }

  /** A record under validations becomes one row, of the validation results. */
  lemma ValidationSays(lib: Library, r: Fields, g: Given)
    requires ValidationRows(lib, r, g).Some?
    ensures var rows := ValidationRows(lib, r, g).value;
            && |rows| == 1 && rows[0].table == ValidationResults && ValidationValues(lib, r, g.evidenceRefs, rows[0].row)
            && Holds(rows[0].row, "validation_id",
                     Filled(r, Named("validation_id"), Str("validation-" + lib.digest(r))))
            && Holds(rows[0].row, "created_at", Filled(r, Named("created_at"), g.ingestedAt))
  {
    ValidationCellsSay(lib, r, g.evidenceRefs);
    ValidationRowSays(lib, r, g, ValidationCells(lib, r, g.evidenceRefs).value);
  }

  lemma ValidationRowSays(lib: Library, r: Fields, g: Given, cells: Cells)
    requires ValidationValues(lib, r, g.evidenceRefs, cells)
    ensures var id := OrElse(r, Named("validation_id"), StableId(lib, "validation", r));
            var row := Row(ValidationResults, cells, id, CreatedAt(r, g)).row;
            && ValidationValues(lib, r, g.evidenceRefs, row)
            && Holds(row, "validation_id", Filled(r, Named("validation_id"), Str("validation-" + lib.digest(r))))
            && Holds(row, "created_at", Filled(r, Named("created_at"), g.ingestedAt))
  {
    var id, at := OrElse(r, Named("validation_id"), StableId(lib, "validation", r)), CreatedAt(r, g);
    ValidationKeeps(lib, r, g.evidenceRefs, cells, id, at);
    RowStamped(ValidationResults, cells, id, at);
    assert "validation" + "-" + lib.digest(r) == "validation-" + lib.digest(r);
  }

  // ---------------------------------------------------------------- projects

  predicate ProjectValues(lib: Library, r: Fields, row: Cells) {
    && Truthy(Value(r, ProjectId)) && "name" in row && "description" in row && "status" in row
    && row["name"] == Filled(r, Named("project_name"), Str(lib.text(r[ProjectId])))
    && row["description"] == Filled(r, Named("description"), Str(""))
    && row["status"] == Filled(r, Named("status"), Str("active"))
    && Holds(row, "project_path", Value(r, Named("project_path")))
    && Holds(row, "last_session_at", Value(r, Named("last_session_at")))
    && Integral(lib, row, "total_sessions", Value(r, Named("total_sessions")))
    && Integral(lib, row, "total_tokens", Value(r, Named("total_tokens")))
  }

  /** The column holds the value as an integer, 0 for none. */
  predicate Integral(lib: Library, row: Cells, c: Column, v: Json) {
    c in row && if v == Null then row[c] == Num(0) else lib.integer(v) == Some(row[c])
  }

  lemma ProjectCellsSay(lib: Library, r: Fields)
    requires ProjectCells(lib, r).Some?
    ensures ProjectValues(lib, r, ProjectCells(lib, r).value)
  {
  }

  lemma ProjectKeeps(lib: Library, r: Fields, cells: Cells, updated: Json, id: Json, at: Json)
    requires ProjectValues(lib, r, cells)
    ensures ProjectValues(lib, r, Row(BusinessProjects, cells + map["updated_at" := updated], id, at).row)
  {
    forall c, v | Holds(cells, c, v) && c != "updated_at" && c != "project_id" && c != "created_at"
      ensures Holds(Row(BusinessProjects, cells + map["updated_at" := updated], id, at).row, c, v)
    {
      RowKeeps(BusinessProjects, cells + map["updated_at" := updated], id, at, c, v);
    }
    assert Holds(cells, "name", cells["name"]) && Holds(cells, "description", cells["description"]);
    assert Holds(cells, "status", cells["status"]) && Holds(cells, "total_sessions", cells["total_sessions"]);
    assert Holds(cells, "total_tokens", cells["total_tokens"]);
  }

  /** A record under projects becomes one row, of the business projects. */
  lemma ProjectSays(lib: Library, r: Fields, g: Given)
    requires ProjectRows(lib, r, g).Some?
    ensures var rows := ProjectRows(lib, r, g).value;
            && |rows| == 1 && rows[0].table == BusinessProjects && ProjectValues(lib, r, rows[0].row)
            && Holds(rows[0].row, "project_id", Str(lib.text(r[ProjectId])))
            && Holds(rows[0].row, "created_at", Filled(r, Named("created_at"), g.ingestedAt))
            && Holds(rows[0].row, "updated_at", g.ingestedAt)
  {
    var cells, id, at := ProjectCells(lib, r).value, Str(lib.text(r[ProjectId])), CreatedAt(r, g);
    var others := cells + map["updated_at" := g.ingestedAt];
    ProjectCellsSay(lib, r);
    ProjectKeeps(lib, r, cells, g.ingestedAt, id, at);
    RowStamped(BusinessProjects, others, id, at);
    RowKeeps(BusinessProjects, others, id, at, "updated_at", g.ingestedAt);
  }

  // ---------------------------------------------------------------- readiness

  predicate ControlCellsAre(control: Fields, project: Json, assessment: Json, row: Cells) {
    && Holds(row, "parent_event_id", assessment) && Holds(row, "event_kind", Str("control_result.recorded"))
    && Holds(row, "project_id", project)
    && Holds(row, "control_id", Filled(control, Named("control_id"), Str("unknown_control")))
    && Holds(row, "title", Filled(control, Named("control_id"), Str("unknown_control")))
    && Holds(row, "result", Filled(control, Named("status"), Str("incomplete")))
  }

  /** What the row of a control holds, under an assessment of a project. */
  predicate ControlValues(lib: Library, control: Fields, g: Given, project: Json, assessment: Json, row: Cells) {
    && ControlCellsAre(control, project, assessment, row)
    && Holds(row, "event_id", Filled(control, Named("result_id"), Str("readiness-control-" + lib.digest(control))))
    && Holds(row, "created_at", Filled(control, Named("created_at"), g.ingestedAt))
  }

  lemma ControlCellsSay(lib: Library, control: Fields, project: Json, assessment: Json)
    ensures ControlCellsAre(control, project, assessment, ControlCells(lib, control, project, assessment))
  {
  }

  /** A row of an event table keeps its other columns. */
  lemma EventKeeps(cells: Cells, id: Json, at: Json)
    ensures forall c, v :: Holds(cells, c, v) && c != "event_id" && c != "created_at" ==>
                             Holds(Row(ReadinessEvents, cells, id, at).row, c, v)
  {
    forall c, v | Holds(cells, c, v) && c != "event_id" && c != "created_at"
      ensures Holds(Row(ReadinessEvents, cells, id, at).row, c, v)
    {
      RowKeeps(ReadinessEvents, cells, id, at, c, v);
    }
  }

  lemma ControlKeeps(control: Fields, project: Json, assessment: Json, cells: Cells, id: Json, at: Json)
    requires ControlCellsAre(control, project, assessment, cells)
    ensures ControlCellsAre(control, project, assessment, Row(ReadinessEvents, cells, id, at).row)
  {
    EventKeeps(cells, id, at);
  }

  lemma ControlSays(lib: Library, control: Fields, g: Given, project: Json, assessment: Json)
    ensures var b := ControlRow(lib, control, g, project, assessment);
            b.table == ReadinessEvents && ControlValues(lib, control, g, project, assessment, b.row)
  {
    var cells := ControlCells(lib, control, project, assessment);
    ControlCellsSay(lib, control, project, assessment);
    ControlKeeps(control, project, assessment, cells, ControlId(lib, control), CreatedAt(control, g));
    RowStamped(ReadinessEvents, cells, ControlId(lib, control), CreatedAt(control, g));
    assert "readiness-control" + "-" + lib.digest(control) == "readiness-control-" + lib.digest(control);
  }

  predicate AssessmentCellsAre(lib: Library, r: Fields, project: Json, id: Json, row: Cells) {
    && Holds(row, "project_id", project) && Holds(row, "event_kind", Str("assessment.started"))
    && Holds(row, "work_order_id", Value(r, WorkOrderId))
    && Holds(row, "title", Str("analytics import: " + lib.text(id)))
  }

  /** What the row of an assessment holds, apart from its text. */
  predicate AssessmentValues(lib: Library, r: Fields, g: Given, row: Cells) {
    var id := Filled(r, Named("assessment_id"), Str("readiness-" + lib.digest(r)));
    && Truthy(Value(r, ProjectId)) && AssessmentCellsAre(lib, r, Str(lib.text(r[ProjectId])), id, row)
    && Holds(row, "event_id", id) && Holds(row, "created_at", Filled(r, Named("created_at"), g.ingestedAt))
  }

  lemma AssessmentCellsSay(lib: Library, r: Fields, project: Json, id: Json, body: Json)
    ensures AssessmentCellsAre(lib, r, project, id, AssessmentCells(lib, r, project, id, body))
  {
  }

  lemma AssessmentKeeps(lib: Library, r: Fields, project: Json, id: Json, cells: Cells, at: Json)
    requires AssessmentCellsAre(lib, r, project, id, cells)
    ensures AssessmentCellsAre(lib, r, project, id, Row(ReadinessEvents, cells, id, at).row)
  {
    EventKeeps(cells, id, at);
  }

  lemma AssessmentRowSays(lib: Library, r: Fields, g: Given, project: Json, id: Json)
    ensures var b := AssessmentRow(lib, r, g, project, id);
            && b.table == ReadinessEvents && AssessmentCellsAre(lib, r, project, id, b.row)
            && Holds(b.row, "event_id", id) && Holds(b.row, "created_at", CreatedAt(r, g))
  {
    var body := Encode(lib, AssessmentBody(r));
    AssessmentCellsSay(lib, r, project, id, body);
    AssessmentKeeps(lib, r, project, id, AssessmentCells(lib, r, project, id, body), CreatedAt(r, g));
    RowStamped(ReadinessEvents, AssessmentCells(lib, r, project, id, body), id, CreatedAt(r, g));
  }

  lemma AssessmentSays(lib: Library, r: Fields, g: Given)
    requires Truthy(Value(r, ProjectId))
    ensures var b := AssessmentRow(lib, r, g, Str(lib.text(r[ProjectId])), AssessmentId(lib, r));
            && b.table == ReadinessEvents && AssessmentValues(lib, r, g, b.row)
            && b.row["event_id"] == AssessmentId(lib, r)
  {
    AssessmentRowSays(lib, r, g, Str(lib.text(r[ProjectId])), AssessmentId(lib, r));
    assert "readiness" + "-" + lib.digest(r) == "readiness-" + lib.digest(r);
  }

  /** One row for each control that is an object, in order. */
  predicate RowsOfControls(lib: Library, controls: seq<Json>, g: Given, project: Json, assessment: Json,
                           rows: seq<Built>)
    decreases |controls|
  {
    if controls == [] then rows == []
    else
      var init, last := controls[..|controls| - 1], controls[|controls| - 1];
      if !last.Obj? then RowsOfControls(lib, init, g, project, assessment, rows)
      else
        && rows != [] && rows[|rows| - 1].table == ReadinessEvents
        && ControlValues(lib, last.fields, g, project, assessment, rows[|rows| - 1].row)
        && RowsOfControls(lib, init, g, project, assessment, rows[..|rows| - 1])
  }

  lemma {:induction false} ControlRowsSay(lib: Library, controls: seq<Json>, g: Given, project: Json, assessment: Json)
    ensures RowsOfControls(lib, controls, g, project, assessment, ControlRows(lib, controls, g, project, assessment))
    decreases |controls|
  {
    if controls != [] {
      var init, last := controls[..|controls| - 1], controls[|controls| - 1];
      ControlRowsSay(lib, init, g, project, assessment);
      if last.Obj? {
        ControlSays(lib, last.fields, g, project, assessment);
        var rows, b := ControlRows(lib, init, g, project, assessment),
                       ControlRow(lib, last.fields, g, project, assessment);
        assert (rows + [b])[..|rows|] == rows;
      } else {
        assert ControlRows(lib, init, g, project, assessment) + [] == ControlRows(lib, init, g, project, assessment);
      }
    }
  }

  /** The controls of a record, if it has a list of them. */
  function ControlsOf(r: Fields): seq<Json> {
    var controls := Value(r, Named("controls"));
    if controls.Arr? then controls.items else []
  }

  /** A record under readiness becomes a row for the assessment and then one for each control that is an
      object, which names the assessment as its parent. */
  lemma ReadinessSays(lib: Library, r: Fields, g: Given)
    requires ReadinessRows(lib, r, g).Some?
    ensures var rows := ReadinessRows(lib, r, g).value;
            && rows != [] && rows[0].table == ReadinessEvents && AssessmentValues(lib, r, g, rows[0].row)
            && RowsOfControls(lib, ControlsOf(r), g, Str(lib.text(r[ProjectId])), rows[0].row["event_id"], rows[1..])
  {
    ReadinessShape(lib, r, g);
    var project, id := Str(lib.text(r[ProjectId])), AssessmentId(lib, r);
    var first, rest := AssessmentRow(lib, r, g, project, id), ControlRows(lib, ControlsOf(r), g, project, id);
    AssessmentSays(lib, r, g);
    ControlRowsSay(lib, ControlsOf(r), g, project, id);
    FirstAndRest(first, rest);
  }

  lemma ReadinessShape(lib: Library, r: Fields, g: Given)
    requires ReadinessRows(lib, r, g).Some?
    ensures Truthy(Value(r, ProjectId))
    ensures var project, id := Str(lib.text(r[ProjectId])), AssessmentId(lib, r);
            ReadinessRows(lib, r, g).value
            == [AssessmentRow(lib, r, g, project, id)] + ControlRows(lib, ControlsOf(r), g, project, id)
  {
  }

  lemma FirstAndRest(first: Built, rest: seq<Built>)
    ensures ([first] + rest)[0] == first && ([first] + rest)[1..] == rest
  {
  }

  // ---------------------------------------------------------------- what raises

  /** The value is there and is no integer. */
  predicate NoInteger(lib: Library, v: Json) { v != Null && lib.integer(v).None? }

  predicate NoMerge(lib: Library, refs: seq<Json>, own: Json) {
    lib.unique(refs + if own == Null then [] else if own.Arr? then own.items else [own]).None?
  }

  /** Which records raise: those without a project, with a count that is no integer, with references that
      cannot be compared, with a description that is no text, or with a number for controls. */
  lemma RecordsRaise(lib: Library, r: Fields, g: Given)
    ensures ProjectRows(lib, r, g).None? <==>
            || !Truthy(Value(r, ProjectId)) || NoInteger(lib, Value(r, Named("total_sessions")))
            || NoInteger(lib, Value(r, Named("total_tokens")))
    ensures ValidationRows(lib, r, g).None? <==>
            || !Truthy(Value(r, ProjectId)) || NoMerge(lib, g.evidenceRefs, Value(r, Named("evidence_refs")))
    ensures FindingRows(lib, r, g).None? <==>
            || !Truthy(Value(r, ProjectId))
            || var d := Filled2(r, Named("description"), Named("summary"), Str("")); !d.Str? && !d.Encoded?
    ensures ReadinessRows(lib, r, g).None? <==>
            || !Truthy(Value(r, ProjectId))
            || var c := Value(r, Named("controls")); Truthy(c) && (c.Num? || c.Bool?)
  {
    ProjectRaises(lib, r, g);
    ValidationRaises(lib, r, g);
    FindingRaises(lib, r, g);
    ReadinessRaises(lib, r, g);
  }

  lemma ProjectRaises(lib: Library, r: Fields, g: Given)
    ensures ProjectRows(lib, r, g).None? <==>
            || !Truthy(Value(r, ProjectId)) || NoInteger(lib, Value(r, Named("total_sessions")))
            || NoInteger(lib, Value(r, Named("total_tokens")))
  {
  }

  lemma ValidationRaises(lib: Library, r: Fields, g: Given)
    ensures ValidationRows(lib, r, g).None? <==>
            || !Truthy(Value(r, ProjectId)) || NoMerge(lib, g.evidenceRefs, Value(r, Named("evidence_refs")))
  {
  }

  lemma FindingRaises(lib: Library, r: Fields, g: Given)
    ensures FindingRows(lib, r, g).None? <==>
            || !Truthy(Value(r, ProjectId))
            || var d := Filled2(r, Named("description"), Named("summary"), Str("")); !d.Str? && !d.Encoded?
  {
  }

  lemma ReadinessRaises(lib: Library, r: Fields, g: Given)
    ensures ReadinessRows(lib, r, g).None? <==>
            || !Truthy(Value(r, ProjectId))
            || var c := Value(r, Named("controls")); Truthy(c) && (c.Num? || c.Bool?)
  {
  }

  // ---------------------------------------------------------------- imported again

  /** The same finding imported twice, in one payload or in two: what was recorded first stays, severity and
      all. */
  lemma FindingKeptOnce(x: Setting, lib: Library, g: Given, r: Fields, s: Fields, rows: seq<Built>, i: nat, j: nat,
                        db: Database)
    requires Schema(x) && "severity" in x.columns(SecurityEvents) && i < j < |rows| && Outcome(x, db, rows).Some?
    requires FindingRows(lib, r, g) == Some([rows[i]]) && FindingRows(lib, s, g) == Some([rows[j]])
    requires Truthy(Value(r, Named("finding_id"))) && Value(s, Named("finding_id")) == r[Named("finding_id")]
    requires var p := Place(SecurityEvents, r[Named("finding_id")]);
             p !in db ==> x.accepts(ItemOf(x, rows[i])) && forall k :: 0 <= k < i ==> PlaceOf(ItemOf(x, rows[k])) != p
    ensures var p, d := Place(SecurityEvents, r[Named("finding_id")]), Outcome(x, db, rows).value;
            && PlaceOf(ItemOf(x, rows[j])) == p && p in d && (p in db ==> d[p] == db[p])
            && (p !in db ==> Holds(d[p], "event_id", r[Named("finding_id")])
                             && Holds(d[p], "severity", Filled(r, Severity, Str("unknown"))))
  {
    var p := Place(SecurityEvents, r[Named("finding_id")]);
    FindingItem(x, lib, g, r, rows[i]);
    FindingItem(x, lib, g, s, rows[j]);
    OutcomeIsUpserts(x, db, rows);
    FinalIs(db, Items(x, rows), p, x.accepts);
    if p !in db {
      FirstOfItems(x, rows, i, p);
    }
  }

  lemma FindingItem(x: Setting, lib: Library, g: Given, r: Fields, b: Built)
    requires Schema(x) && "severity" in x.columns(SecurityEvents) && FindingRows(lib, r, g) == Some([b])
    ensures var i := ItemOf(x, b);
            && i.table == SecurityEvents && i.id == Filled(r, Named("finding_id"), Str("security-" + lib.digest(r)))
            && Holds(i.cells, "event_id", i.id) && Holds(i.cells, "severity", Filled(r, Severity, Str("unknown")))
  {
    FindingSays(lib, r, g);
    assert [b][0] == b;
  }

  lemma FirstOfItems(x: Setting, rows: seq<Built>, i: nat, p: Place)
    requires i < |rows| && PlaceOf(ItemOf(x, rows[i])) == p && ItemOf(x, rows[i]).cells != map[]
    requires x.accepts(ItemOf(x, rows[i])) && forall k :: 0 <= k < i ==> PlaceOf(ItemOf(x, rows[k])) != p
    ensures FirstAccepted(Items(x, rows), p, x.accepts) == Some(ItemOf(x, rows[i]).cells)
  {
    var items := Items(x, rows);
    ItemsAt(x, rows, i);
    forall k | 0 <= k < i ensures PlaceOf(items[k]) != p {
      ItemsAt(x, rows, k);
    }
    FirstAcceptedIs(items, p, x.accepts, i);
  }

  /** The same validation imported twice, in one payload or in two: its status is that of the last record. */
  lemma LastValidationStays(x: Setting, lib: Library, g: Given, r: Fields, rows: seq<Built>, i: nat, db: Database)
    requires Schema(x) && "status" in x.columns(ValidationResults) && i < |rows| && Outcome(x, db, rows).Some?
    requires ValidationRows(lib, r, g) == Some([rows[i]]) && Truthy(Value(r, Named("validation_id")))
    requires forall k :: i < k < |rows| ==>
                           PlaceOf(ItemOf(x, rows[k])) != Place(ValidationResults, r[Named("validation_id")])
    ensures var p, d := Place(ValidationResults, r[Named("validation_id")]), Outcome(x, db, rows).value;
            && p in d && Holds(d[p], "validation_id", r[Named("validation_id")])
            && Holds(d[p], "status", Filled(r, Named("status"), Str("unknown")))
  {
    ValidationItem(x, lib, g, r, rows[i]);
    LastOfItems(x, rows, i, db);
  }

  lemma LastOfItems(x: Setting, rows: seq<Built>, i: nat, db: Database)
    requires i < |rows| && Outcome(x, db, rows).Some? && ItemOf(x, rows[i]).cells != map[]
    requires ItemOf(x, rows[i]).table == ValidationResults
    requires forall k :: i < k < |rows| ==> PlaceOf(ItemOf(x, rows[k])) != PlaceOf(ItemOf(x, rows[i]))
    ensures var p, d := PlaceOf(ItemOf(x, rows[i])), Outcome(x, db, rows).value;
            p in d && forall c :: c in ItemOf(x, rows[i]).cells ==> c in d[p] && d[p][c] == ItemOf(x, rows[i]).cells[c]
  {
    var items := Items(x, rows);
    OutcomeIsUpserts(x, db, rows);
    ItemsAt(x, rows, i);
    forall k | i < k < |items| ensures PlaceOf(items[k]) != PlaceOf(items[i]) {
      ItemsAt(x, rows, k);
    }
    LastRecordWins(db, items, i, x.accepts);
  }

  lemma ValidationItem(x: Setting, lib: Library, g: Given, r: Fields, b: Built)
    requires Schema(x) && "status" in x.columns(ValidationResults) && ValidationRows(lib, r, g) == Some([b])
    ensures var i := ItemOf(x, b);
            && i.table == ValidationResults
            && i.id == Filled(r, Named("validation_id"), Str("validation-" + lib.digest(r)))
            && Holds(i.cells, "validation_id", i.id)
            && Holds(i.cells, "status", Filled(r, Named("status"), Str("unknown")))
  {
    ValidationSays(lib, r, g);
    assert [b][0] == b;
  }

  // ---------------------------------------------------------------- usage

  /** A cost that is known and of a known source. */
  predicate Chargeable(r: Fields, absent: string) {
    var visibility := Filled(r, Named("cost_visibility"), Str(absent));
    var source := Filled(r, Named("cost_source"), Str(absent));
    && (|| visibility == Str("exact") || visibility == Str("provider_reported") || visibility == Str("estimated")
        || visibility == Str("allocated_subscription_cost"))
    && source != Str("unknown") && source != Str("unavailable")
  }

  lemma CostRule(r: Fields, absent: string)
    ensures Chargeable(r, absent) <==> CostAllowed(OrElse(r, Named("cost_visibility"), Str(absent)),
                                                   OrElse(r, Named("cost_source"), Str(absent)))
  {
  }

  lemma CostColumns(r: Fields, allowed: bool)
    ensures CostCells(r, allowed)["cost_amount"] == if allowed then Value(r, Named("cost_amount")) else Null
    ensures CostCells(r, allowed)["cost_currency"] == if allowed then Value(r, Named("cost_currency")) else Null
    ensures TokenCostCells(r, allowed)["estimated_cost"] == if allowed then Value(r, Named("cost_amount")) else Num(0)
  {
  }

  /** A cost is recorded only if it is chargeable; otherwise token usage has none, and AI usage an unknown
      one, without a currency. */
  lemma CostsSay(lib: Library, r: Fields, sources: seq<Json>, evidence: seq<Json>)
    ensures TokenUsageCells(lib, r, sources, evidence).Some? ==>
              Holds(TokenUsageCells(lib, r, sources, evidence).value, "estimated_cost",
                    if Chargeable(r, "unavailable") then Value(r, Named("cost_amount")) else Num(0))
    ensures AiUsageCells(lib, r, sources, evidence).Some? ==>
              && Holds(AiUsageCells(lib, r, sources, evidence).value, "cost_amount",
                       if Chargeable(r, "unknown") then Value(r, Named("cost_amount")) else Null)
              && Holds(AiUsageCells(lib, r, sources, evidence).value, "cost_currency",
                       if Chargeable(r, "unknown") then Value(r, Named("cost_currency")) else Null)
  {
    TokenCostSays(lib, r, sources, evidence);
    AiCostSays(lib, r, sources, evidence);
  }

  lemma TokenCostSays(lib: Library, r: Fields, sources: seq<Json>, evidence: seq<Json>)
    ensures TokenUsageCells(lib, r, sources, evidence).Some? ==>
              Holds(TokenUsageCells(lib, r, sources, evidence).value, "estimated_cost",
                    if Chargeable(r, "unavailable") then Value(r, Named("cost_amount")) else Num(0))
  {
    CostRule(r, "unavailable");
    CostColumns(r, Chargeable(r, "unavailable"));
  }

  lemma AiCostSays(lib: Library, r: Fields, sources: seq<Json>, evidence: seq<Json>)
    ensures AiUsageCells(lib, r, sources, evidence).Some? ==>
              && Holds(AiUsageCells(lib, r, sources, evidence).value, "cost_amount",
                       if Chargeable(r, "unknown") then Value(r, Named("cost_amount")) else Null)
              && Holds(AiUsageCells(lib, r, sources, evidence).value, "cost_currency",
                       if Chargeable(r, "unknown") then Value(r, Named("cost_currency")) else Null)
  {
    CostRule(r, "unknown");
    CostColumns(r, Chargeable(r, "unknown"));
  }
}

/** The section handlers of the analytics import: how a record becomes rows. */
module SectionHandlers {
  import opened Collections
  import opened Documents
  import opened Upsert
  import opened AnalyticsImport
  import Text = Findings

  /** The library calls the handlers make: a value as text, as JSON text, as an integer (which may
      raise), a list without its duplicates (which may raise), and the digest in a made-up id. */
  datatype Library = Library(text: Json -> string, encode: Json -> string, integer: Json -> Option<Json>,
                             unique: seq<Json> -> Option<seq<Json>>, digest: Fields -> string)

  /** What every handler is given besides the record. */
  datatype Given = Given(sourceRefs: seq<Json>, evidenceRefs: seq<Json>, ingestedAt: Json)

  // ---------------------------------------------------------------- helpers

  /** `record.get(key) or default` */
  function OrElse(r: Fields, k: Key, default: Json): Json { Or(Get(r, k), default) }

  function Required(lib: Library, r: Fields, k: Key): Option<Json> {
    if Truthy(Get(r, k)) then Some(Str(lib.text(Get(r, k)))) else None
  }

  function StableId(lib: Library, prefix: string, r: Fields): Json { Str(prefix + "-" + lib.digest(r)) }

  function Encode(lib: Library, j: Json): Json { Str(lib.encode(j)) }

  function ListOf(j: Json): seq<Json> {
    match j
    case Null => []
    case Arr(items) => items
    case _ => [j]
  }

  function MergedRefs(lib: Library, r: Fields, inherited: seq<Json>, k: Key): Option<Json> {
    var refs := lib.unique(inherited + ListOf(Get(r, k)));
    if refs.Some? then Some(Encode(lib, Arr(refs.value))) else None
  }

  function Integer(lib: Library, j: Json, default: Json): Option<Json> {
    if j == Null then Some(default) else lib.integer(j)
  }

  function BoolOrNull(j: Json): Json {
    if j == Null then Null else Num(if Truthy(j) then 1 else 0)
  }

  const EVIDENCE_REFS := Named("evidence_refs")
  const SOURCE_REFS := Named("source_refs")

  /** The row fills its key and its time of creation. */
  predicate Stamped(b: Built) { KeyColumn(b.table) in b.row && "created_at" in b.row }

  /** A row: its other cells, its key and when it was created. */
  function Row(t: Table, others: Cells, id: Json, createdAt: Json): (b: Built)
    ensures Stamped(b) && b.table == t
  {
    Built(t, others + map[KeyColumn(t) := id] + map["created_at" := createdAt])
  }

  function CreatedAt(r: Fields, g: Given): Json { OrElse(r, Named("created_at"), g.ingestedAt) }

  // ---------------------------------------------------------------- projects, validations, findings

  function ProjectCells(lib: Library, r: Fields): Option<Cells> {
    var id := Required(lib, r, ProjectId);
    var sessions := Integer(lib, Get(r, Named("total_sessions")), Num(0));
    var tokens := Integer(lib, Get(r, Named("total_tokens")), Num(0));
    if id.None? || sessions.None? || tokens.None? then None
    else
      Some(map[
             "name" := OrElse(r, Named("project_name"), id.value),
             "description" := OrElse(r, Named("description"), Str("")),
             "status" := OrElse(r, Named("status"), Str("active")),
             "project_path" := Get(r, Named("project_path")),
             "total_sessions" := sessions.value,
             "total_tokens" := tokens.value,
             "last_session_at" := Get(r, Named("last_session_at"))
           ])
  }

  function ProjectRows(lib: Library, r: Fields, g: Given): (rows: Option<seq<Built>>)
    ensures AllStamped(rows)
  {
    var id, cells := Required(lib, r, ProjectId), ProjectCells(lib, r);
    if id.None? || cells.None? then None
    else
      Some([Row(BusinessProjects, cells.value + map["updated_at" := g.ingestedAt], id.value, CreatedAt(r, g))])
  }

  function ValidationCells(lib: Library, r: Fields, evidenceRefs: seq<Json>): Option<Cells> {
    var project := Required(lib, r, ProjectId);
    var refs := MergedRefs(lib, r, evidenceRefs, EVIDENCE_REFS);
    if project.None? || refs.None? then None
    else
      Some(map[
             "project_id" := project.value,
             "milestone_id" := Get(r, MilestoneId),
             "task_id" := Get(r, TaskId),
             "process_run_id" := Get(r, Named("process_run_id")),
             "event_id" := Get(r, EventId),
             "validation_type" := OrElse(r, Named("validation_type"), Str("analytics_import")),
             "status" := OrElse(r, Named("status"), Str("unknown")),
             "command" := Get(r, Named("command")),
             "scope" := Get(r, Named("scope")),
             "summary" := Get(r, Named("summary")),
             "evidence_refs_json" := refs.value
           ])
  }

  function ValidationRows(lib: Library, r: Fields, g: Given): (rows: Option<seq<Built>>)
    ensures AllStamped(rows)
  {
    var cells := ValidationCells(lib, r, g.evidenceRefs);
    if cells.None? then None
    else
      var id := OrElse(r, Named("validation_id"), StableId(lib, "validation", r));
      Some([Row(ValidationResults, cells.value, id, CreatedAt(r, g))])
  }

  function RuleOf(r: Fields): Json { Or(Get(r, Named("rule_id")), Get(r, Named("control_id"))) }

  /** The description, then what follows from the recommendation and the rule, on lines of their own,
      stripped; nothing at all is null.  A description that is no string raises. */
  function FindingBody(lib: Library, r: Fields): Option<Json> {
    var description := Or(Or(Get(r, Named("description")), Get(r, Named("summary"))), Str(""));
    var recommendation := Or(Or(Get(r, Named("recommendation")), Get(r, Named("remediation_path"))), Str(""));
    if !description.Str? && !description.Encoded? then None
    else
      var advice := if Truthy(recommendation) then "\nRemediation: " + lib.text(recommendation) else "";
      var rule := if Truthy(RuleOf(r)) then "\nRule: " + lib.text(RuleOf(r)) else "";
      var body := Text.Strip(lib.text(description) + advice + rule);
      Some(if body == "" then Null else Str(body))
  }

  function FindingCells(lib: Library, r: Fields): Option<Cells> {
    var project := Required(lib, r, ProjectId);
    var body := FindingBody(lib, r);
    if project.None? || body.None? then None
    else
      Some(map[
             "event_kind" := Str("finding.recorded"),
             "project_id" := project.value,
             "work_order_id" := Get(r, WorkOrderId),
             "severity" := OrElse(r, Severity, Str("unknown")),
             "vuln_class" := Or(Or(Get(r, Named("category")), Get(r, Named("control_family"))),
                                Str("imported")),
             "file_path" := Get(r, Named("file_path")),
             "line_number" := Or(Get(r, Named("line")), Get(r, Named("start_line"))),
             "title" := Or(Or(RuleOf(r), Get(r, Named("category"))), Str("analytics_import")),
             "body" := body.value
           ])
  }

  function FindingRows(lib: Library, r: Fields, g: Given): (rows: Option<seq<Built>>)
    ensures AllStamped(rows)
  {
    var cells := FindingCells(lib, r);
    if cells.None? then None
    else
      var id := OrElse(r, Named("finding_id"), StableId(lib, "security", r));
      Some([Row(SecurityEvents, cells.value, id, CreatedAt(r, g))])
  }

  // ---------------------------------------------------------------- usage

  predicate Visible(visibility: Json) {
    || visibility == Str("exact") || visibility == Str("provider_reported") || visibility == Str("estimated")
    || visibility == Str("allocated_subscription_cost")
  }

  /** A cost counts only if it is visible and its source is known. */
  predicate CostAllowed(visibility: Json, source: Json) {
    Visible(visibility) && source != Str("unknown") && source != Str("unavailable")
  }

  predicate Hashable(j: Json) { !j.Arr? && !j.Obj? }

  /** Looking a list or an object up in a set raises. */
  predicate CostRaises(visibility: Json, source: Json) {
    !Hashable(visibility) || (Visible(visibility) && !Hashable(source))
  }

  function TokenUsageCells(lib: Library, r: Fields, sourceRefs: seq<Json>, evidenceRefs: seq<Json>): Option<Cells> {
    var input := Integer(lib, Get(r, Named("input_tokens")), Num(0));
    var output := Integer(lib, Get(r, Named("output_tokens")), Num(0));
    var cached := Integer(lib, Get(r, Named("cached_tokens")), Num(0));
    if input.None? || output.None? || cached.None? then None
    else
      var total := Integer(lib, Get(r, Named("total_tokens")), Plus(Plus(input.value, output.value), cached.value));
      var sources := MergedRefs(lib, r, sourceRefs, SOURCE_REFS);
      var evidence := MergedRefs(lib, r, evidenceRefs, EVIDENCE_REFS);
      var visibility := OrElse(r, Named("cost_visibility"), Str("unavailable"));
      var source := OrElse(r, Named("cost_source"), Str("unavailable"));
      if total.None? || sources.None? || evidence.None? || CostRaises(visibility, source) then None
      else
        Some(TokenNames(r) + TokenCounts(input.value, output.value, cached.value, total.value)
             + TokenLabels(r, visibility, source, sources.value, evidence.value)
             + TokenCostCells(r, CostAllowed(visibility, source)))
  }

  function TokenNames(r: Fields): Cells {
    map["project_id" := Get(r, ProjectId),
        "milestone_id" := Get(r, MilestoneId),
        "task_id" := Get(r, TaskId),
        "process_run_id" := Get(r, Named("process_run_id")),
        "agent_id" := Get(r, AgentId),
        "skill_id" := Get(r, SkillId),
        "workflow_id" := Get(r, WorkflowId),
        "hook_id" := Get(r, HookId),
        "model_id" := Get(r, ModelId),
        "provider" := Get(r, Named("provider")),
        "adapter_id" := Get(r, AdapterId)]
  }

  function TokenCounts(input: Json, output: Json, cached: Json, total: Json): Cells {
    map["input_tokens" := input, "output_tokens" := output, "cached_tokens" := cached, "total_tokens" := total]
  }

  function TokenLabels(r: Fields, visibility: Json, source: Json, sources: Json, evidence: Json): Cells {
    map["purpose" := OrElse(r, Named("purpose"), Str("analytics_only_import")),
        "source_refs_json" := sources,
        "evidence_refs_json" := evidence,
        "billing_mode" := OrElse(r, Named("billing_mode"), Str("unknown")),
        "token_visibility" := OrElse(r, Named("token_visibility"), Str("exact")),
        "cost_visibility" := visibility,
        "usage_source" := OrElse(r, Named("usage_source"), Str("local_telemetry")),
        "cost_source" := source,
        "accounting_confidence" := Or(Or(Get(r, Named("confidence")), Get(r, Named("accounting_confidence"))),
                                      Str("medium"))]
  }

  function TokenCostCells(r: Fields, allowed: bool): Cells {
    map["estimated_cost" := if allowed then Get(r, Named("cost_amount")) else Num(0)]
  }

  function TokenUsageRows(lib: Library, r: Fields, g: Given): (rows: Option<seq<Built>>)
    ensures AllStamped(rows)
  {
    var cells := TokenUsageCells(lib, r, g.sourceRefs, g.evidenceRefs);
    if cells.None? then None
    else
      var id := OrElse(r, Named("token_usage_id"), StableId(lib, "token", r));
      Some([Row(TokenUsageRecords, cells.value, id, CreatedAt(r, g))])
  }

  function Plus(a: Json, b: Json): Json {
    if a.Num? && b.Num? then Num(a.n + b.n) else Null
  }

  function AiUsageCells(lib: Library, r: Fields, sourceRefs: seq<Json>, evidenceRefs: seq<Json>): Option<Cells> {
    var runs := Integer(lib, Get(r, Named("run_count")), Num(1));
    var sources := MergedRefs(lib, r, sourceRefs, SOURCE_REFS);
    var evidence := MergedRefs(lib, r, evidenceRefs, EVIDENCE_REFS);
    var visibility := OrElse(r, Named("cost_visibility"), Str("unknown"));
    var source := OrElse(r, Named("cost_source"), Str("unknown"));
    if runs.None? || sources.None? || evidence.None? || CostRaises(visibility, source) then None
    else
      Some(AiNames(r) + AiLabels(r, visibility, source) + AiCounts(r, runs.value)
           + AiResults(lib, r, sources.value, evidence.value) + CostCells(r, CostAllowed(visibility, source)))
  }

  function AiNames(r: Fields): Cells {
    map["project_id" := Get(r, ProjectId),
        "milestone_id" := Get(r, MilestoneId),
        "task_id" := Get(r, TaskId),
        "work_order_id" := Get(r, WorkOrderId),
        "process_run_id" := Get(r, Named("process_run_id")),
        "adapter_id" := OrElse(r, AdapterId, Str("unknown")),
        "provider" := Get(r, Named("provider")),
        "model_id" := Get(r, ModelId),
        "accounting_profile_id" := Get(r, Named("accounting_profile_id")),
        "token_usage_id" := Get(r, Named("token_usage_id"))]
  }

  function AiLabels(r: Fields, visibility: Json, source: Json): Cells {
    map["billing_mode" := OrElse(r, Named("billing_mode"), Str("unknown")),
        "token_visibility" := OrElse(r, Named("token_visibility"), Str("unavailable")),
        "cost_visibility" := visibility,
        "usage_source" := OrElse(r, Named("usage_source"), Str("local_telemetry")),
        "cost_source" := source,
        "confidence" := OrElse(r, Named("confidence"), Str("unknown"))]
  }

  function AiCounts(r: Fields, runs: Json): Cells {
    map["input_tokens" := Get(r, Named("input_tokens")),
        "output_tokens" := Get(r, Named("output_tokens")),
        "cached_tokens" := Get(r, Named("cached_tokens")),
        "total_tokens" := Get(r, Named("total_tokens")),
        "run_count" := runs,
        "duration_ms" := Get(r, Named("duration_ms"))]
  }

  function AiResults(lib: Library, r: Fields, sources: Json, evidence: Json): Cells {
    map["files_touched_json" := Encode(lib, Arr(ListOf(Get(r, Named("files_touched"))))),
        "commands_run_json" := Encode(lib, Arr(ListOf(Get(r, Named("commands_run"))))),
        "validation_result" := Get(r, Named("validation_result")),
        "pr_result_outcome" := Get(r, Named("pr_result_outcome")),
        "success" := BoolOrNull(Get(r, Named("success"))),
        "failure_reason" := Get(r, Named("failure_reason")),
        "rework_needed" := BoolOrNull(Get(r, Named("rework_needed"))),
        "security_findings_json" := Encode(lib, Arr(ListOf(Get(r, Named("security_findings"))))),
        "readiness_findings_json" := Encode(lib, Arr(ListOf(Get(r, Named("readiness_findings"))))),
        "source_refs_json" := sources,
        "evidence_refs_json" := evidence]
  }

  function CostCells(r: Fields, allowed: bool): Cells {
    map["cost_amount" := if allowed then Get(r, Named("cost_amount")) else Null,
        "cost_currency" := if allowed then Get(r, Named("cost_currency")) else Null]
  }

  function AiUsageRows(lib: Library, r: Fields, g: Given): (rows: Option<seq<Built>>)
    ensures AllStamped(rows)
  {
    var cells := AiUsageCells(lib, r, g.sourceRefs, g.evidenceRefs);
    if cells.None? then None
    else
      var id := OrElse(r, Named("usage_record_id"), StableId(lib, "ai-usage", r));
      Some([Row(AiUsageRecords, cells.value, id, CreatedAt(r, g))])
  }

  // ---------------------------------------------------------------- readiness

  function AssessmentBody(r: Fields): Json {
    Obj(map[Named("status") := OrElse(r, Named("status"), Str("partial")),
            Named("confidence") := OrElse(r, Named("confidence"), Str("medium")),
            Named("health_score") := Get(r, Named("health_score")),
            Named("readiness_score") := Get(r, Named("readiness_score")),
            Named("missing_evidence") := Arr(ListOf(Get(r, Named("missing_evidence")))),
            Named("blocking_factors") := Arr(ListOf(Get(r, Named("blocking_factors")))),
            Named("release_readiness_effect") := Get(r, Named("release_readiness_effect"))])
  }

  function AssessmentRow(lib: Library, r: Fields, g: Given, project: Json, assessment: Json): Built {
    var cells := AssessmentCells(lib, r, project, assessment, Encode(lib, AssessmentBody(r)));
    Row(ReadinessEvents, cells, assessment, CreatedAt(r, g))
  }

  function AssessmentCells(lib: Library, r: Fields, project: Json, assessment: Json, body: Json): Cells {
    map["event_kind" := Str("assessment.started"), "project_id" := project, "work_order_id" := Get(r, WorkOrderId),
        "title" := Str("analytics import: " + lib.text(assessment)), "body" := body]
  }

  /** A control without an id of its own is named after its own content, not after its assessment. */
  function ControlId(lib: Library, control: Fields): Json {
    OrElse(control, Named("result_id"), StableId(lib, "readiness-control", control))
  }

  function ControlRow(lib: Library, control: Fields, g: Given, project: Json, assessment: Json): Built {
    Row(ReadinessEvents, ControlCells(lib, control, project, assessment), ControlId(lib, control), CreatedAt(control, g))
  }

  function ControlCells(lib: Library, control: Fields, project: Json, assessment: Json): Cells {
    var name := OrElse(control, Named("control_id"), Str("unknown_control"));
    map["parent_event_id" := assessment, "event_kind" := Str("control_result.recorded"), "project_id" := project,
        "control_id" := name, "result" := OrElse(control, Named("status"), Str("incomplete")), "title" := name,
        "body" := Encode(lib, Obj(map[Named("control_family") := Get(control, Named("control_family")),
                                      Severity := Get(control, Severity),
                                      Named("applicability") := Get(control, Named("applicability"))]))]
  }

  /** Controls that are no objects are passed over. */
  function ControlRows(lib: Library, controls: seq<Json>, g: Given, project: Json, assessment: Json): (rows: seq<Built>)
    ensures AllStamped(Some(rows))
  {
    if controls == [] then []
    else
      var last := controls[|controls| - 1];
      ControlRows(lib, controls[..|controls| - 1], g, project, assessment)
      + if last.Obj? then [ControlRow(lib, last.fields, g, project, assessment)] else []
  }

  function AssessmentId(lib: Library, r: Fields): Json {
    OrElse(r, Named("assessment_id"), StableId(lib, "readiness", r))
  }

  /** Going through a number or a truth value raises; a text or an object has no objects in it. */
  function Controls(r: Fields): Option<seq<Json>> {
    var controls := OrElse(r, Named("controls"), Arr([]));
    if controls.Num? || controls.Bool? then None else Some(if controls.Arr? then controls.items else [])
  }

  function ReadinessRows(lib: Library, r: Fields, g: Given): (rows: Option<seq<Built>>)
    ensures AllStamped(rows)
  {
    var project := Required(lib, r, ProjectId);
    var controls := Controls(r);
    if project.None? || controls.None? then None
    else
      var id := AssessmentId(lib, r);
      Some([AssessmentRow(lib, r, g, project.value, id)] + ControlRows(lib, controls.value, g, project.value, id))
  }

  /** The handler of each section. */
  function Handler(lib: Library, g: Given): (Section, Fields) -> Option<seq<Built>> {
    (s: Section, r: Fields) =>
      match s
      case Projects => ProjectRows(lib, r, g)
      case Validations => ValidationRows(lib, r, g)
      case Findings => FindingRows(lib, r, g)
      case TokenUsage => TokenUsageRows(lib, r, g)
      case AiUsage => AiUsageRows(lib, r, g)
      case Components => Some([])
      case Dependencies => Some([])
      case Readiness => ReadinessRows(lib, r, g)
  }

  // ---------------------------------------------------------------- what every row has

  predicate AllStamped(rows: Option<seq<Built>>) {
    rows.Some? ==> forall i :: 0 <= i < |rows.value| ==> Stamped(rows.value[i])
  }

  lemma HandlersStamp(lib: Library, g: Given, s: Section, r: Fields)
    ensures AllStamped(Handler(lib, g)(s, r))
  {
    match s
    case Projects => assert AllStamped(ProjectRows(lib, r, g));
    case Validations => assert AllStamped(ValidationRows(lib, r, g));
    case Findings => assert AllStamped(FindingRows(lib, r, g));
    case TokenUsage => assert AllStamped(TokenUsageRows(lib, r, g));
    case AiUsage => assert AllStamped(AiUsageRows(lib, r, g));
    case Components =>
    case Dependencies =>
    case Readiness => assert AllStamped(ReadinessRows(lib, r, g));
  }

  // ---------------------------------------------------------------- the import with these handlers

  /** Every table has its key column and the time of creation. */
  ghost predicate Schema(x: Setting) {
    forall t: Table :: KeyColumn(t) in x.columns(t) && "created_at" in x.columns(t)
  }

  lemma HandlersKeyed(x: Setting, lib: Library, g: Given)
    requires x.build == Handler(lib, g) && Schema(x)
    ensures KeysPresent(x)
  {
    forall s: Section, f: Fields | x.build(s, f).Some? ensures AllKeyed(x.build(s, f).value) {
      HandlersStamp(lib, g, s, f);
    }
  }

  lemma ThenStamped(a: Option<seq<Built>>, b: Option<seq<Built>>)
    requires AllStamped(a) && AllStamped(b)
    ensures AllStamped(Then(a, b))
  {
  }

  lemma {:induction false} RecordsStamped(x: Setting, lib: Library, g: Given, s: Section, records: seq<Json>)
    requires x.build == Handler(lib, g)
    ensures AllStamped(RecordsPlan(x, s, records))
    decreases |records|
  {
    if records != [] {
      var init, last := records[..|records| - 1], records[|records| - 1];
      RecordsStamped(x, lib, g, s, init);
      if last.Obj? {
        HandlersStamp(lib, g, s, last.fields);
      }
      ThenStamped(RecordsPlan(x, s, init), RecordPlan(x, s, last));
    }
  }

  lemma {:induction false} PlanStamped(x: Setting, lib: Library, g: Given, payload: map<Section, Json>,
                                       sections: seq<Section>)
    requires x.build == Handler(lib, g)
    ensures AllStamped(Plan(x, payload, sections))
    decreases |sections|
  {
    if sections != [] {
      var init, last := sections[..|sections| - 1], sections[|sections| - 1];
      PlanStamped(x, lib, g, payload, init);
      var given := AnalyticsImport.Given(payload, last);
      if given.Arr? {
        RecordsStamped(x, lib, g, last, given.items);
      }
      ThenStamped(Plan(x, payload, init), SectionPlan(x, payload, last));
    }
  }

  lemma StampedUpdates(x: Setting, b: Built)
    requires Schema(x) && Stamped(b)
    ensures Updates(ItemOf(x, b))
  {
    assert KeyColumn(b.table)[0] != "created_at"[0];
    assert "created_at" in ItemOf(x, b).cells;
  }

  lemma {:induction false} StampedNotBare(x: Setting, rows: seq<Built>)
    requires Schema(x) && forall i :: 0 <= i < |rows| ==> Stamped(rows[i])
    ensures NoBareKeys(Items(x, rows))
  {
    if rows != [] {
      StampedNotBare(x, rows[..|rows| - 1]);
      StampedUpdates(x, rows[|rows| - 1]);
    }
  }

  /** Replay idempotence of the import, for every payload: if it goes through, it goes through again, and
      the second time changes nothing. */
  lemma PayloadIdempotent(x: Setting, lib: Library, g: Given, payload: map<Section, Json>, db: Database)
    requires x.build == Handler(lib, g) && Schema(x) && Feasible(x, db, true, Plan(x, payload, SECTIONS))
    ensures var plan := Plan(x, payload, SECTIONS);
            var once := Outcome(x, db, plan.value);
            Feasible(x, once.value, true, plan) && Outcome(x, once.value, plan.value) == once
  {
    var rows := Plan(x, payload, SECTIONS).value;
    PlanStamped(x, lib, g, payload, SECTIONS);
    StampedNotBare(x, rows);
    ImportTwice(x, db, rows);
  }

  // ---------------------------------------------------------------- controls without an id

  lemma {:induction false} ItemsAt(x: Setting, rows: seq<Built>, k: nat)
    requires k < |rows|
    ensures |Items(x, rows)| == |rows| && Items(x, rows)[k] == ItemOf(x, rows[k])
  {
    if k < |rows| - 1 {
      ItemsAt(x, rows[..|rows| - 1], k);
    } else if |rows| > 1 {
      ItemsAt(x, rows[..|rows| - 1], 0);
    }
  }

  /** Different contents have different digests. */
  ghost predicate Injective(lib: Library) {
    forall r, s :: lib.digest(r) == lib.digest(s) ==> r == s
  }

  predicate OwnId(control: Fields) { Truthy(Get(control, Named("result_id"))) }

  /** Two controls have one key exactly when they carry the same result_id, or neither carries one and
      their contents agree, or one carries the id made up for the other. */
  lemma SharedControlKey(lib: Library, a: Fields, b: Fields)
    requires Injective(lib)
    ensures ControlId(lib, a) == ControlId(lib, b) <==>
            match (OwnId(a), OwnId(b))
            case (true, true) => Get(a, Named("result_id")) == Get(b, Named("result_id"))
            case (false, false) => a == b
            case (true, false) => Get(a, Named("result_id")) == StableId(lib, "readiness-control", b)
            case (false, true) => Get(b, Named("result_id")) == StableId(lib, "readiness-control", a)
  {
    var x, y := "readiness-control" + "-" + lib.digest(a), "readiness-control" + "-" + lib.digest(b);
    assert x[18..] == lib.digest(a) && y[18..] == lib.digest(b);
  }

  /** The same control without an id of its own, in two assessments, is one key: the import keeps the
      result under the first assessment and drops it under the second. */
  lemma SharedControlKeptOnce(x: Setting, lib: Library, g: Given, control: Fields, rows: seq<Built>, i: nat, j: nat,
                              p: Json, a: Json, q: Json, b: Json, db: Database)
    requires Schema(x) && i < j < |rows| && !Truthy(Get(control, Named("result_id")))
    requires rows[i] == ControlRow(lib, control, g, p, a) && rows[j] == ControlRow(lib, control, g, q, b)
    requires Outcome(x, db, rows).Some? && x.accepts(ItemOf(x, rows[i])) && PlaceOf(ItemOf(x, rows[i])) !in db
    requires forall k :: 0 <= k < i ==> PlaceOf(ItemOf(x, rows[k])) != PlaceOf(ItemOf(x, rows[i]))
    ensures PlaceOf(ItemOf(x, rows[j])) == PlaceOf(ItemOf(x, rows[i]))
    ensures At(Outcome(x, db, rows).value, PlaceOf(ItemOf(x, rows[i]))) == Some(ItemOf(x, rows[i]).cells)
  {
    var items, place := Items(x, rows), PlaceOf(ItemOf(x, rows[i]));
    OutcomeIsUpserts(x, db, rows);
    FinalIs(db, items, place, x.accepts);
    ItemsAt(x, rows, i);
    forall k | 0 <= k < i ensures PlaceOf(items[k]) != place {
      ItemsAt(x, rows, k);
    }
    StampedUpdates(x, rows[i]);
    FirstAcceptedIs(items, place, x.accepts, i);
  }
}

/** Event classification, routing, and the rows one event contributes to the three tables. */
module Rows {
  import opened Documents
  import opened Collections

  // ---------------------------------------------------------------- routing

  /** The canonical tables an event type goes to; neither means raw only. */
  datatype Routing = Routing(business: bool, ai: bool)

  /** The event type registry. */
  type Registry = map<string, Routing>

  /** Unregistered types go to both tables, the over-recording default. */
  function Routes(reg: Registry, eventType: Json): Routing {
    if eventType.Str? && eventType.s in reg then reg[eventType.s] else Routing(true, true)
  }

  predicate RawOnly(reg: Registry, f: Fields) {
    var routes := Routes(reg, Get(f, EventType));
    !routes.business && !routes.ai
  }

  // ---------------------------------------------------------------- acceptance

  /** What the ingestor does with a file's content before it writes anything. */
  datatype Verdict =
    | Unparsed           // decoding failed in a way the parse handler catches
    | Rejected           // a required field is absent or the skill id is malformed
    | Escapes            // an exception leaves the per-file function
    | Accepted(fields: Fields)

  const REQUIRED_FIELDS: set<Key> := {EventId, EventType, Timestamp, SchemaVersion}

  predicate IsLower(c: char) { 'a' <= c <= 'z' }
  predicate IsDigit(c: char) { '0' <= c <= '9' }

  predicate SkillTail(s: string) {
    forall i :: 0 <= i < |s| ==> IsLower(s[i]) || IsDigit(s[i]) || s[i] == '-'
  }

  /** `^ds-[a-z][a-z0-9-]*$`; `$` also accepts one newline at the very end. */
  predicate SkillIdMatches(s: string) {
    && |s| >= 4 && s[..3] == "ds-" && IsLower(s[3])
    && (SkillTail(s[4..]) || (s[|s| - 1] == '\n' && |s| >= 5 && SkillTail(s[4..|s| - 1])))
  }

  /** The skill id may sit at top level or in the trace; a trace that is not an object, and an
      id that is not a string, raise. */
  function CheckSkill(f: Fields): Verdict {
    var top := Get(f, SkillId);
    var trace := Or(Get(f, Trace), Obj(map[]));
    if !Truthy(top) && !trace.Obj? then Escapes
    else
      var id := if Truthy(top) then top
                else Or(Or(Get(trace.fields, SkillId), Get(trace.fields, SkillSpecifier)), Str(""));
      match id
      case Str(s) => if SkillIdMatches(s) then Accepted(f) else Rejected
      case Encoded(_) => Rejected
      case _ => Escapes
  }

  function Classify(c: Content): Verdict {
    match c
    case NotJson => Unparsed
    case Doc(Obj(f)) =>
      if !(REQUIRED_FIELDS <= f.Keys) then Rejected
      else if f[EventType] == Str("skill.invoked") then CheckSkill(f)
      else Accepted(f)
    case _ => Escapes
  }

  // ---------------------------------------------------------------- what is accepted

  /** ds-, a lower-case letter, then lower-case letters, digits and dashes; one newline may follow. */
  ghost predicate SkillName(s: string) { exists body: string :: Spells(s, body) }

  predicate Spells(s: string, body: string) {
    && (s == "ds-" + body || s == "ds-" + body + "\n") && body != "" && 'a' <= body[0] <= 'z'
    && forall i :: 0 <= i < |body| ==> 'a' <= body[i] <= 'z' || '0' <= body[i] <= '9' || body[i] == '-'
  }

  lemma SkillIdIs(s: string)
    ensures SkillIdMatches(s) <==> SkillName(s)
  {
    if SkillIdMatches(s) {
      var body := if SkillTail(s[4..]) then s[3..] else s[3..|s| - 1];
      TailSpells(s, body);
    }
    if SkillName(s) {
      var body :| Spells(s, body);
      SpellsTail(s, body);
    }
  }

  lemma TailSpells(s: string, body: string)
    requires SkillIdMatches(s) && body == if SkillTail(s[4..]) then s[3..] else s[3..|s| - 1]
    ensures Spells(s, body)
  {
    var tail := if SkillTail(s[4..]) then s[4..] else s[4..|s| - 1];
    assert forall i :: 1 <= i < |body| ==> body[i] == tail[i - 1];
    assert s == s[..3] + s[3..];
  }

  lemma SpellsTail(s: string, body: string)
    requires Spells(s, body)
    ensures SkillIdMatches(s)
  {
    if s == "ds-" + body {
      assert s[4..] == body[1..];
    } else {
      assert s[4..|s| - 1] == body[1..];
    }
  }

  /** The event names its skill: at top level, or else by id or specifier in a trace that is an object. */
  ghost predicate NamesSkill(f: Fields) {
    var top, trace := Get(f, SkillId), Get(f, Trace);
    || (top.Str? && SkillName(top.s))
    || (!Truthy(top) && trace.Obj? && Get(trace.fields, SkillId).Str? && SkillName(Get(trace.fields, SkillId).s))
    || (!Truthy(top) && trace.Obj? && !Truthy(Get(trace.fields, SkillId))
        && Get(trace.fields, SkillSpecifier).Str? && SkillName(Get(trace.fields, SkillSpecifier).s))
  }

  /** The value is there, but no text. */
  predicate Odd(j: Json) { Truthy(j) && !j.Str? && !j.Encoded? }

  /** Looking for the skill raises: the value it comes to is no text, or the trace has no keys to look up. */
  predicate Chokes(f: Fields) {
    var top, trace := Get(f, SkillId), Get(f, Trace);
    || Odd(top)
    || (!Truthy(top) && Truthy(trace) && !trace.Obj?)
    || (!Truthy(top) && trace.Obj? && Odd(Get(trace.fields, SkillId)))
    || (!Truthy(top) && trace.Obj? && !Truthy(Get(trace.fields, SkillId)) && Odd(Get(trace.fields, SkillSpecifier)))
  }

  ghost predicate AllRequired(f: Fields) {
    EventId in f && EventType in f && Timestamp in f && SchemaVersion in f
  }

  /** What is made of a content: an object with the four fields is accepted, unless it is an invoked skill
      that is not named well; bytes that are no text, documents that are no objects, and lookups of the
      skill that raise escape; everything else goes to failed/. */
  lemma ClassifyIs(c: Content)
    ensures Classify(c).Unparsed? <==> c.NotJson?
    ensures Classify(c).Accepted? <==>
            c.Doc? && c.json.Obj? && AllRequired(c.json.fields)
            && (c.json.fields[EventType] == Str("skill.invoked") ==> NamesSkill(c.json.fields))
    ensures Classify(c).Accepted? ==> c == Doc(Obj(Classify(c).fields))
    ensures Classify(c).Escapes? <==>
            || c.NotUtf8? || (c.Doc? && !c.json.Obj?)
            || (c.Doc? && c.json.Obj? && AllRequired(c.json.fields)
                && c.json.fields[EventType] == Str("skill.invoked") && Chokes(c.json.fields))
  {
    if c.Doc? && c.json.Obj? {
      SkillCheckIs(c.json.fields);
    }
  }

  lemma SkillCheckIs(f: Fields)
    ensures CheckSkill(f).Accepted? <==> NamesSkill(f)
    ensures CheckSkill(f).Escapes? <==> Chokes(f)
    ensures !CheckSkill(f).Unparsed? && (CheckSkill(f).Accepted? ==> CheckSkill(f).fields == f)
  {
    var top, trace := Get(f, SkillId), Get(f, Trace);
    TextChecked(top);
    if trace.Obj? {
      TextChecked(Get(trace.fields, SkillId));
      TextChecked(Get(trace.fields, SkillSpecifier));
    }
  }

  lemma TextChecked(id: Json)
    ensures id.Str? ==> (SkillIdMatches(id.s) <==> SkillName(id.s))
    ensures id.Str? && SkillName(id.s) ==> Truthy(id)
    ensures !SkillIdMatches("")
  {
    if id.Str? {
      SkillIdIs(id.s);
    }
  }

  // ---------------------------------------------------------------- correlation

  /** The parts a correlation id is joined from, outermost context first: a null part is left out,
      and an id with no part is null. */
  datatype Correlation = Correlation(session: Json, workflow: Json, skill: Json, agent: Json, hook: Json, tool: Json)

  /** Context ids resolved from the envelope, its trace and its payload. */
  datatype Ids = Ids(session: Json, project: Json, workflow: Json, skill: Json, agent: Json,
                     hook: Json, tool: Json, model: Json, adapter: Json, correlation: Correlation)

  function ExtractIds(f: Fields): Ids {
    var trace := AsObject(Get(f, Trace));
    var payload := AsObject(Get(f, Payload));
    var session := First3(Get(f, SessionId), Get(trace, SessionId), Get(payload, SessionId));
    var project := First3(Get(f, ProjectId), Get(trace, ProjectId), Get(payload, ProjectId));
    var workflow := First3(Get(trace, WorkflowId), Get(trace, StreamId), Get(payload, WorkflowId));
    var skill := First(Get(trace, SkillId), Get(trace, SkillSpecifier));
    var agent := First(Get(trace, AgentId), Get(payload, AgentId));
    var hook := Get(trace, HookId);
    var tool := Get(trace, ToolId);
    var model := First(Get(trace, ModelId), Get(payload, Model));
    Ids(session, project, workflow, skill, agent, hook, tool, model, Get(trace, AdapterId),
        Correlation(session, workflow, skill, agent, hook, tool))
  }

  /** `g` is the object under a key, given directly or as text; anything else counts as empty. */
  ghost predicate Holds(f: Fields, k: Key, g: Fields) {
    || (k in f && (f[k] == Obj(g) || f[k] == Encoded(Obj(g))))
    || (g == map[] && (k in f ==> !f[k].Obj? && !(f[k].Encoded? && f[k].doc.Obj?)))
  }

  /** The first candidate that is not null; null if there is none. */
  ghost predicate FirstOf(v: Json, candidates: seq<Json>) {
    || (v == Null && forall i :: 0 <= i < |candidates| ==> candidates[i] == Null)
    || (v != Null && exists i :: 0 <= i < |candidates| && candidates[i] == v
                                 && forall j :: 0 <= j < i ==> candidates[j] == Null)
  }

  lemma FirstIs(a: Json, b: Json)
    ensures FirstOf(First(a, b), [a, b])
  {
    var s := [a, b];
    assert s[0] == a && s[1] == b;
  }

  lemma First3Is(a: Json, b: Json, c: Json)
    ensures FirstOf(First3(a, b, c), [a, b, c])
  {
    var s := [a, b, c];
    assert s[0] == a && s[1] == b && s[2] == c;
  }

  lemma FirstUnique(v: Json, w: Json, candidates: seq<Json>)
    requires FirstOf(v, candidates) && FirstOf(w, candidates)
    ensures v == w
  {
  }

  /** Where each id of an event is looked up: in the envelope, its trace and its payload. */
  lemma IdsAre(f: Fields, trace: Fields, payload: Fields)
    requires Holds(f, Trace, trace) && Holds(f, Payload, payload)
    ensures var ids := ExtractIds(f);
            && FirstOf(ids.session, [Get(f, SessionId), Get(trace, SessionId), Get(payload, SessionId)])
            && FirstOf(ids.project, [Get(f, ProjectId), Get(trace, ProjectId), Get(payload, ProjectId)])
            && FirstOf(ids.workflow, [Get(trace, WorkflowId), Get(trace, StreamId), Get(payload, WorkflowId)])
            && FirstOf(ids.skill, [Get(trace, SkillId), Get(trace, SkillSpecifier)])
            && FirstOf(ids.agent, [Get(trace, AgentId), Get(payload, AgentId)])
            && ids.hook == Get(trace, HookId) && ids.tool == Get(trace, ToolId)
            && FirstOf(ids.model, [Get(trace, ModelId), Get(payload, Model)])
            && ids.adapter == Get(trace, AdapterId)
            && ids.correlation == Correlation(ids.session, ids.workflow, ids.skill, ids.agent, ids.hook, ids.tool)
  {
    First3Is(Get(f, SessionId), Get(trace, SessionId), Get(payload, SessionId));
    First3Is(Get(f, ProjectId), Get(trace, ProjectId), Get(payload, ProjectId));
    First3Is(Get(trace, WorkflowId), Get(trace, StreamId), Get(payload, WorkflowId));
    FirstIs(Get(trace, SkillId), Get(trace, SkillSpecifier));
    FirstIs(Get(trace, AgentId), Get(payload, AgentId));
    FirstIs(Get(trace, ModelId), Get(payload, Model));
  }

  // ---------------------------------------------------------------- rows

  /** A stored row, kept as the event it was built from and the time it was received; the columns
      of each table are the functions below. */
  datatype Row = Row(fields: Fields, receivedAt: int)

  datatype RawColumns = RawColumns(eventType: Json, timestamp: Json, schemaVersion: Json, source: Fields, ids: Ids)

  /** The columns both canonical tables share. */
  datatype Common = Common(eventType: Json, timestamp: Json, schemaVersion: Json,
                           trace: Fields, payload: Json, correlation: Correlation, severity: Json)

  datatype BusinessColumns = BusinessColumns(common: Common, project: Json, milestone: Json, workOrder: Json,
                                             task: Json)

  datatype AiColumns = AiColumns(common: Common, session: Json, skill: Json, workflow: Json, agent: Json,
                                 hook: Json, model: Json, project: Json)

  function RawOf(r: Row): RawColumns {
    var f := r.fields;
    RawColumns(Get(f, EventType), Get(f, Timestamp), Get(f, SchemaVersion), f, ExtractIds(f))
  }

  function CommonOf(f: Fields): Common {
    Common(Get(f, EventType), Get(f, Timestamp), Get(f, SchemaVersion),
           AsObject(Get(f, Trace)), if Payload in f then f[Payload] else Obj(map[]),
           ExtractIds(f).correlation, if Severity in f then f[Severity] else Str("info"))
  }

  function BusinessOf(r: Row): BusinessColumns {
    var trace := AsObject(Get(r.fields, Trace));
    BusinessColumns(CommonOf(r.fields), Or(ExtractIds(r.fields).project, Get(trace, ProjectId)),
                    Get(trace, MilestoneId), Get(trace, WorkOrderId), Get(trace, TaskId))
  }

  function AiOf(r: Row): AiColumns {
    var ids := ExtractIds(r.fields);
    AiColumns(CommonOf(r.fields), ids.session, ids.skill, ids.workflow, ids.agent, ids.hook, ids.model, ids.project)
  }

  /** The NOT NULL columns of the raw table are filled. */
  predicate RawComplete(f: Fields) {
    Get(f, EventType) != Null && Get(f, Timestamp) != Null && Get(f, SchemaVersion) != Null
  }

  /** The NOT NULL columns of a canonical table are filled; severity defaults only when absent. */
  predicate CanonicalComplete(f: Fields) {
    RawComplete(f) && (Severity in f ==> f[Severity] != Null)
  }

  // ---------------------------------------------------------------- tables

  type Table = map<string, Row>

  datatype Tables = Tables(raw: Table, business: Table, ai: Table)

  const EMPTY_TABLES := Tables(map[], map[], map[])

  /** INSERT OR IGNORE on a text key: a row with a null in a NOT NULL column, or whose key is
      already there, changes nothing. */
  function InsertOrIgnore(t: Table, f: Fields, complete: bool, now: int): Table {
    var id := Get(f, EventId);
    if complete && id.Str? && id.s !in t then t[id.s := Row(f, now)] else t
  }

  function InsertRaw(t: Tables, f: Fields, now: int): Tables {
    t.(raw := InsertOrIgnore(t.raw, f, RawComplete(f), now))
  }

  /** One transaction: the routed inserts commit together. */
  function InsertCanonical(t: Tables, reg: Registry, f: Fields, now: int): Tables {
    var routes := Routes(reg, Get(f, EventType));
    t.(business := if routes.business then InsertOrIgnore(t.business, f, CanonicalComplete(f), now) else t.business,
    ai := if routes.ai then InsertOrIgnore(t.ai, f, CanonicalComplete(f), now) else t.ai)
  }

  /** Every row of `a` is in `b`, unchanged. */
  ghost predicate Extends(a: Tables, b: Tables) {
    SubMap(a.raw, b.raw) && SubMap(a.business, b.business) && SubMap(a.ai, b.ai)
  }
}

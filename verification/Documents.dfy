/** JSON documents as the spool reads them, and the small lookups the pipeline makes on them. */
module Documents {

  /** A decoded JSON value.  `Encoded(doc)` is a string whose text is itself the JSON form
      of `doc` (emitters sometimes store `trace` or `payload` that way); `Str` is any other string. */
  datatype Json =
    | Null
    | Bool(b: bool)
    | Num(n: int)
    | Str(s: string)
    | Encoded(doc: Json)
    | Arr(items: seq<Json>)
    | Obj(fields: Fields)

  type Fields = map<Key, Json>

  /** The object keys the pipeline reads; every other key is `Named`. */
  datatype Key =
    | EventId | EventType | Timestamp | SchemaVersion | Trace | Payload | Severity
    | SessionId | ProjectId | WorkflowId | StreamId | SkillId | SkillSpecifier | AgentId
    | HookId | ToolId | ModelId | Model | AdapterId | MilestoneId | WorkOrderId | TaskId
    | Named(text: string)

  /** What a file in the spool holds. */
  datatype Content = NotUtf8 | NotJson | Doc(json: Json)

  /** `d.get(k)`: absent keys and explicit nulls both read as null. */
  function Get(f: Fields, k: Key): Json {
    if k in f then f[k] else Null
  }

  /** Python truthiness, the test behind `a or b`. */
  predicate Truthy(j: Json) {
    match j
    case Null => false
    case Bool(b) => b
    case Num(n) => n != 0
    case Str(s) => s != ""
    case Encoded(_) => true
    case Arr(items) => items != []
    case Obj(f) => f != map[]
  }

  /** The values that count as absent. */
  lemma FalsyAre(j: Json)
    ensures !Truthy(j) <==> j in {Null, Bool(false), Num(0), Str(""), Arr([]), Obj(map[])}
  {
  }

  function Or(a: Json, b: Json): Json {
    if Truthy(a) then a else b
  }

  /** The first of two, or of three, candidates that is not null. */
  function First(a: Json, b: Json): Json {
    if a != Null then a else b
  }

  function First3(a: Json, b: Json, c: Json): Json {
    First(a, First(b, c))
  }

  /** An object given directly or as encoded text; anything else counts as the empty object. */
  function AsObject(j: Json): Fields {
    match j
    case Obj(f) => f
    case Encoded(Obj(f)) => f
    case _ => map[]
  }

}

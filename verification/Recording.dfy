/** What the tables say about the files: processed means recorded, raw before canonical, paired
    rows together, and no row ever changed. */
module Recording {
  import opened Documents
  import opened Rows
  import opened Spool
  import opened Conservation

  /** What a run is judged against.
      - `log`: one content per event id; every file published under a name carries `log(name)`.
      - `verdict`: what the ingestor makes of that content.
      - `torn`: whether restores may die half way through writing a file. */
  datatype World = World(log: Name -> Content, verdict: Name -> Verdict, torn: bool, reg: Registry)

  /** The verdicts are the classifier's, and an accepted document's id is the name of its file:
      the writer names a file after the id it puts in it. */
  ghost predicate Sound(c: World) {
    && (forall n :: c.verdict(n) == Classify(c.log(n)))
    && (forall n :: c.verdict(n).Accepted? ==> Get(c.verdict(n).fields, EventId) == Str(n))
  }

  /** A file holds its name's content or, where restores may die, a cut of it. */
  predicate Agrees(c: World, n: Name, content: Content) {
    content == c.log(n) || (c.torn && (content == NotJson || content == NotUtf8))
  }

  ghost predicate AllAgree(c: World, m: map<Name, File>) {
    forall n :: n in m ==> Agrees(c, n, m[n].content)
  }

  /** The actions of a run that publishes one content per id. */
  predicate Honest(c: World, a: Action) {
    match a
    case Publish(n, file) => file.content == c.log(n)
    case Restore(_, RestoreCopy(_, _, cut)) => c.torn || cut == Whole
    case _ => true
  }

  // ---------------------------------------------------------------- what the tables hold

  function RoutesOf(c: World, f: Fields): Routing {
    Routes(c.reg, Get(f, EventType))
  }

  predicate RawRowOk(c: World, n: Name, row: Row) {
    var v := c.verdict(n);
    v.Accepted? && RawComplete(v.fields) && row.fields == v.fields
  }

  predicate BusinessRowOk(c: World, n: Name, row: Row) {
    var v := c.verdict(n);
    v.Accepted? && CanonicalComplete(v.fields) && RoutesOf(c, v.fields).business && row.fields == v.fields
  }

  predicate AiRowOk(c: World, n: Name, row: Row) {
    var v := c.verdict(n);
    v.Accepted? && CanonicalComplete(v.fields) && RoutesOf(c, v.fields).ai && row.fields == v.fields
  }

  /** Every row is the one its event determines, up to the time it was received. */
  ghost predicate RowsOk(c: World, t: Tables) {
    && (forall n :: n in t.raw ==> RawRowOk(c, n, t.raw[n]))
    && (forall n :: n in t.business ==> BusinessRowOk(c, n, t.business[n]))
    && (forall n :: n in t.ai ==> AiRowOk(c, n, t.ai[n]))
  }

  /** No canonical row without a raw row. */
  ghost predicate RawFirst(t: Tables) {
    t.business.Keys <= t.raw.Keys && t.ai.Keys <= t.raw.Keys
  }

  predicate RoutedToBoth(c: World, n: Name) {
    var v := c.verdict(n);
    v.Accepted? && RoutesOf(c, v.fields).business && RoutesOf(c, v.fields).ai
  }

  /** An event routed to both tables is in both or in neither, and the two rows come
      from one event and one receipt time. */
  ghost predicate Paired(c: World, t: Tables) {
    forall n :: RoutedToBoth(c, n) ==>
                  (n in t.business <==> n in t.ai)
                  && (n in t.business && n in t.ai ==> t.business[n] == t.ai[n])
  }

  ghost predicate TablesOk(c: World, t: Tables) {
    RowsOk(c, t) && RawFirst(t) && Paired(c, t)
  }

  predicate RawDoneFor(t: Tables, n: Name, f: Fields) {
    RawComplete(f) ==> n in t.raw
  }

  predicate CanonicalDoneFor(c: World, t: Tables, n: Name, f: Fields) {
    CanonicalComplete(f) ==> (RoutesOf(c, f).business ==> n in t.business) && (RoutesOf(c, f).ai ==> n in t.ai)
  }

  /** The event is accepted and everything it contributes is in the tables. */
  predicate Done(c: World, t: Tables, n: Name) {
    var v := c.verdict(n);
    v.Accepted? && RawDoneFor(t, n, v.fields) && CanonicalDoneFor(c, t, n, v.fields)
  }

  // ---------------------------------------------------------------- the invariant

  ghost predicate DirsOk(c: World, d: Dirs) {
    AllAgree(c, d.inbox) && AllAgree(c, d.processing) && AllAgree(c, d.processed) && AllAgree(c, d.failed)
  }

  /** A set of archived files: their bytes agree with the log and their events are recorded. */
  ghost predicate EntriesOk(c: World, t: Tables, m: map<Name, File>) {
    AllAgree(c, m) && forall n :: n in m ==> Done(c, t, n)
  }

  ghost predicate ZipOk(c: World, t: Tables, z: WeekZip) {
    z.intact ==> EntriesOk(c, t, z.entries)
  }

  ghost predicate YearOk(c: World, t: Tables, y: YearZip) {
    y.intact ==> forall w :: w in y.weeks ==> ZipOk(c, t, y.weeks[w])
  }

  ghost predicate ArchivesOk(c: World, t: Tables, a: Archives) {
    && (forall w :: w in a.weekly ==> ZipOk(c, t, a.weekly[w]))
    && (forall y :: y in a.yearly ==> YearOk(c, t, a.yearly[y]))
  }

  ghost predicate RunnerOk(c: World, t: Tables, r: Runner) {
    match r
    case Zipping(_, _, built) => EntriesOk(c, t, built)
    case Published(_, _, built) => EntriesOk(c, t, built)
    case YearZipping(_, _, gathered) => forall w :: w in gathered ==> ZipOk(c, t, gathered[w])
    case YearPublished(_, _, gathered) => forall w :: w in gathered ==> ZipOk(c, t, gathered[w])
    case _ => true
  }

  predicate PcOk(c: World, t: Tables, pc: Pc) {
    match pc
    case Parsed(n, f) => c.verdict(n) == Accepted(f)
    case RawDone(n, f) => c.verdict(n) == Accepted(f) && RawDoneFor(t, n, f)
    case Recorded(n, f) => c.verdict(n) == Accepted(f) && Done(c, t, n)
    case _ => true
  }

  ghost predicate WorkersOk(c: World, t: Tables, workers: map<nat, Worker>) {
    forall w :: w in workers ==> PcOk(c, t, workers[w].pc)
  }

  ghost predicate ProcessedOk(c: World, t: Tables, processed: Dir) {
    forall n :: n in processed ==> Done(c, t, n)
  }

  ghost predicate RestoresOk(c: World, restores: map<nat, map<Name, File>>) {
    forall r :: r in restores ==> AllAgree(c, restores[r])
  }

  ghost predicate Inv(c: World, s: State) {
    && s.reg == c.reg && TablesOk(c, s.tables) && DirsOk(c, s.dirs)
    && ProcessedOk(c, s.tables, s.dirs.processed) && WorkersOk(c, s.tables, s.workers)
    && ArchivesOk(c, s.tables, s.archives) && RunnerOk(c, s.tables, s.runner) && RestoresOk(c, s.restores)
  }

  /** A fresh spool root. */
  predicate Initial(s: State) {
    && s.dirs == Dirs(map[], map[], map[], map[]) && s.archives == Archives(map[], map[])
    && s.tables == EMPTY_TABLES && s.workers == map[] && s.runner.Idle? && s.restores == map[]
  }

  lemma InitialInv(c: World, s: State)
    requires Initial(s) && s.reg == c.reg
    ensures Inv(c, s)
  {
  }

  // ---------------------------------------------------------------- tables only grow

  lemma InsertsExtend(t: Tables, reg: Registry, f: Fields, now: int)
    ensures Extends(t, InsertRaw(t, f, now)) && Extends(t, InsertCanonical(t, reg, f, now))
  {
  }

  /** Recorded events stay recorded when the tables grow. */
  lemma DoneGrows(c: World, t: Tables, t': Tables)
    requires Extends(t, t')
    ensures forall n :: Done(c, t, n) ==> Done(c, t', n)
    ensures forall pc :: PcOk(c, t, pc) ==> PcOk(c, t', pc)
    ensures forall z :: ZipOk(c, t, z) ==> ZipOk(c, t', z)
    ensures forall y :: YearOk(c, t, y) ==> YearOk(c, t', y)
  {
    assert forall z :: ZipOk(c, t, z) ==> ZipOk(c, t', z);
  }

  lemma RawInsertOk(c: World, t: Tables, n: Name, f: Fields, now: int)
    requires TablesOk(c, t) && c.verdict(n) == Accepted(f) && Get(f, EventId) == Str(n)
    ensures TablesOk(c, InsertRaw(t, f, now)) && RawDoneFor(InsertRaw(t, f, now), n, f)
  {
  }

  lemma CanonicalRowsOk(c: World, t: Tables, n: Name, f: Fields, now: int)
    requires RowsOk(c, t) && c.verdict(n) == Accepted(f) && Get(f, EventId) == Str(n)
    ensures RowsOk(c, InsertCanonical(t, c.reg, f, now))
  {
  }

  lemma CanonicalPaired(c: World, t: Tables, n: Name, f: Fields, now: int)
    requires Paired(c, t) && c.verdict(n) == Accepted(f) && Get(f, EventId) == Str(n)
    ensures Paired(c, InsertCanonical(t, c.reg, f, now))
  {
  }

  lemma CanonicalDone(c: World, t: Tables, n: Name, f: Fields, now: int)
    requires RawFirst(t) && c.verdict(n) == Accepted(f) && Get(f, EventId) == Str(n) && RawDoneFor(t, n, f)
    ensures var t' := InsertCanonical(t, c.reg, f, now); RawFirst(t') && Done(c, t', n)
  {
  }

  // ---------------------------------------------------------------- one action

  /** A step whose tables grow soundly and whose archives, runner and restores stay put keeps the
      invariant when its directories and its worker are in order. */
  lemma QuietStepInv(c: World, s: State, s': State)
    requires Inv(c, s) && TablesOk(c, s'.tables) && Extends(s.tables, s'.tables)
    requires s'.reg == s.reg && s'.archives == s.archives && s'.runner == s.runner && s'.restores == s.restores
    requires DirsOk(c, s'.dirs)
    requires forall n :: n in s'.dirs.processed && n !in s.dirs.processed ==> Done(c, s'.tables, n)
    requires forall w :: w in s'.workers ==>
                           PcOk(c, s'.tables, s'.workers[w].pc) || (w in s.workers && s.workers[w] == s'.workers[w])
    ensures Inv(c, s')
  {
    DoneGrows(c, s.tables, s'.tables);
  }

  /** A file that decodes to an accepted document is whole, so it is the logged one. */
  lemma AcceptedIsLogged(c: World, n: Name, content: Content)
    requires Sound(c) && Agrees(c, n, content) && Classify(content).Accepted?
    ensures c.verdict(n) == Classify(content)
  {
  }

  /** A step that keeps tables, archives, runner and restores, and moves one worker to a pc in
      order. */
  lemma WorkerStepInv(c: World, s: State, d: Dirs, w: nat, wk: Worker)
    requires Inv(c, s) && DirsOk(c, d) && PcOk(c, s.tables, wk.pc)
    requires forall n :: n in d.processed && n !in s.dirs.processed ==> Done(c, s.tables, n)
    ensures Inv(c, SetWorker(s.(dirs := d), w, wk))
  {
    QuietStepInv(c, s, SetWorker(s.(dirs := d), w, wk));
  }

  lemma ReadInv(c: World, s: State, w: nat, fault: Fault)
    requires Sound(c) && Inv(c, s) && w in s.workers
    ensures Inv(c, StepRead(s, w, fault)) && StepRead(s, w, fault).tables == s.tables
  {
  }

  /** Every rename keeps each file under its own name. */
  lemma MovesAgree(c: World, d: Dirs, n: Name)
    requires DirsOk(c, d)
    ensures n in d.inbox ==> DirsOk(c, ToProcessing(d, n)) && DirsOk(c, InboxToFailed(d, n))
    ensures n in d.processing ==>
              DirsOk(c, ToProcessed(d, n)) && DirsOk(c, BackToInbox(d, n)) && DirsOk(c, ProcessingToFailed(d, n))
  {
  }

  lemma ClaimInv(c: World, s: State, w: nat, fault: Fault)
    requires Inv(c, s) && w in s.workers
    ensures Inv(c, StepClaim(s, w, fault)) && StepClaim(s, w, fault).tables == s.tables
  {
  }

  /** A step that grows the tables and moves one worker. */
  lemma TablesStepInv(c: World, s: State, t: Tables, w: nat, wk: Worker)
    requires Inv(c, s) && TablesOk(c, t) && Extends(s.tables, t) && PcOk(c, t, wk.pc)
    ensures Inv(c, SetWorker(s.(tables := t), w, wk))
  {
    QuietStepInv(c, s, SetWorker(s.(tables := t), w, wk));
  }

  lemma WriteRawInv(c: World, s: State, w: nat, now: int, fault: Fault)
    requires Sound(c) && Inv(c, s) && w in s.workers
    ensures Inv(c, StepWriteRaw(s, w, now, fault)) && Extends(s.tables, StepWriteRaw(s, w, now, fault).tables)
  {
    var wk := s.workers[w];
    if wk.pc.Parsed? {
      var n, f := wk.pc.name, wk.pc.fields;
      assert PcOk(c, s.tables, wk.pc);
      if fault == Fine {
        RawInsertOk(c, s.tables, n, f, now);
        InsertsExtend(s.tables, s.reg, f, now);
        TablesStepInv(c, s, InsertRaw(s.tables, f, now), w, wk.(pc := RawDone(n, f)));
      } else {
        TablesStepInv(c, s, s.tables, w, wk.(pc := RawFailed(n, fault)));
      }
    }
  }

  lemma CanonicalInsertOk(c: World, t: Tables, n: Name, f: Fields, now: int)
    requires TablesOk(c, t) && c.verdict(n) == Accepted(f) && Get(f, EventId) == Str(n) && RawDoneFor(t, n, f)
    ensures var t' := InsertCanonical(t, c.reg, f, now); TablesOk(c, t') && Done(c, t', n) && Extends(t, t')
  {
    CanonicalRowsOk(c, t, n, f, now);
    CanonicalPaired(c, t, n, f, now);
    CanonicalDone(c, t, n, f, now);
    InsertsExtend(t, c.reg, f, now);
  }

  lemma WriteCanonicalInv(c: World, s: State, w: nat, now: int, fault: Fault)
    requires Sound(c) && Inv(c, s) && w in s.workers
    ensures Inv(c, StepWriteCanonical(s, w, now, fault))
    ensures Extends(s.tables, StepWriteCanonical(s, w, now, fault).tables)
  {
    var wk := s.workers[w];
    if wk.pc.RawDone? {
      var n, f := wk.pc.name, wk.pc.fields;
      assert PcOk(c, s.tables, wk.pc);
      if fault == Fine || RawOnly(s.reg, f) {
        CanonicalInsertOk(c, s.tables, n, f, now);
        TablesStepInv(c, s, InsertCanonical(s.tables, s.reg, f, now), w, wk.(pc := Recorded(n, f)));
      } else {
        TablesStepInv(c, s, s.tables, w, Raise(wk, n, fault));
      }
    }
  }

  lemma FinishInv(c: World, s: State, w: nat, fault: Fault)
    requires Inv(c, s) && w in s.workers
    ensures Inv(c, StepFinish(s, w, fault)) && StepFinish(s, w, fault).tables == s.tables
  {
  }

  lemma MoveInv(c: World, s: State, w: nat, m: IngestMove)
    requires Inv(c, s) && (m.PutBack? || m.FailMove? || m.OuterMove?) && w in s.workers
    ensures Inv(c, StepIngest(s, w, m)) && StepIngest(s, w, m).tables == s.tables
  {
    var wk := s.workers[w];
    if wk.pc.RawFailed? || wk.pc.Failing? || wk.pc.Outer? {
      MovesAgree(c, s.dirs, wk.pc.name);
      var s' := StepIngest(s, w, m);
      if s' != s {
        WorkerStepInv(c, s, s'.dirs, w, s'.workers[w]);
      }
    }
  }

  lemma IngestStepInv(c: World, s: State, w: nat, m: IngestMove)
    requires Sound(c) && Inv(c, s) && w in s.workers
    ensures Inv(c, StepIngest(s, w, m)) && Extends(s.tables, StepIngest(s, w, m).tables)
  {
    match m
    case Claim(fault) => ClaimInv(c, s, w, fault);
    case Read(fault) => ReadInv(c, s, w, fault);
    case WriteRaw(now, fault) => WriteRawInv(c, s, w, now, fault);
    case WriteCanonical(now, fault) => WriteCanonicalInv(c, s, w, now, fault);
    case Finish(fault) => FinishInv(c, s, w, fault);
    case PutBack(ok) => MoveInv(c, s, w, m);
    case FailMove(ok) => MoveInv(c, s, w, m);
    case OuterMove(ok) => MoveInv(c, s, w, m);
  }

  lemma ArchiveStepInv(c: World, s: State, m: ArchiveMove)
    requires Inv(c, s) && RunnerSafe(s)
    ensures Inv(c, StepArchive(s, m)) && StepArchive(s, m).tables == s.tables
  {
    match m
    case ArchiveBegin(_, _) =>
    case ArchiveAdd(n) =>
    case ArchivePublish(zip) =>
    case ArchiveVerify(_, _) =>
    case ArchiveDelete(_, _) =>
  }

  lemma YearStepInv(c: World, s: State, m: YearMove)
    requires Inv(c, s) && RunnerSafe(s)
    ensures Inv(c, StepYear(s, m)) && StepYear(s, m).tables == s.tables
  {
    match m
    case YearBegin(_, _) =>
    case YearAdd(_) =>
    case YearPublish(zip) =>
    case YearVerify(_, _) =>
    case YearDelete(_, _) =>
  }

  lemma RestoreStepInv(c: World, s: State, r: nat, m: RestoreMove)
    requires Inv(c, s) && Honest(c, Restore(r, m))
    ensures Inv(c, StepRestore(s, r, m)) && StepRestore(s, r, m).tables == s.tables
  {
  }

  lemma StepInv(c: World, s: State, a: Action)
    requires Sound(c) && Inv(c, s) && RunnerSafe(s) && Honest(c, a)
    ensures Inv(c, Step(s, a)) && Extends(s.tables, Step(s, a).tables)
  {
    match a
    case Ingest(w, m) =>
      if w in s.workers {
        IngestStepInv(c, s, w, m);
      }
    case Archive(m) => ArchiveStepInv(c, s, m);
    case Consolidate(m) => YearStepInv(c, s, m);
    case Restore(r, m) => RestoreStepInv(c, s, r, m);
    case LifecycleStop =>
    case _ => QuietStepInv(c, s, Step(s, a));
  }

  // ---------------------------------------------------------------- whole runs

  ghost predicate HonestRun(c: World, run: seq<Action>) {
    forall i :: 0 <= i < |run| ==> Honest(c, run[i])
  }

  /** Every state of every run keeps the invariant, and no row once inserted ever changes. */
  lemma {:induction false} RunInv(c: World, s: State, run: seq<Action>)
    requires Sound(c) && HonestRun(c, run) && Inv(c, s) && RunnerSafe(s)
    ensures Inv(c, Exec(s, run)) && RunnerSafe(Exec(s, run)) && Extends(s.tables, Exec(s, run).tables)
    decreases |run|
  {
    if run != [] {
      var prefix := run[..|run| - 1];
      RunInv(c, s, prefix);
      StepInv(c, Exec(s, prefix), run[|run| - 1]);
      StepConserves(Exec(s, prefix), run[|run| - 1]);
    }
  }

  /** A run from a fresh root that publishes one content per id, under that id. */
  ghost predicate GoodRun(c: World, s0: State, run: seq<Action>) {
    Sound(c) && Initial(s0) && s0.reg == c.reg && HonestRun(c, run)
  }

  lemma ReachableInv(c: World, s0: State, run: seq<Action>)
    requires GoodRun(c, s0, run)
    ensures Inv(c, Exec(s0, run)) && RunnerSafe(Exec(s0, run))
  {
    InitialInv(c, s0);
    RunInv(c, s0, run);
  }

  /** Processed means recorded: in every reachable state, a file in processed/ holds an object with the
      four required fields, its id the file's name.  It has a raw row exactly when none of them is null.
      It has a business row exactly when, besides, its severity is no explicit null and its type is
      unregistered or registered for business; and so for the AI table. */
  lemma ProcessedMeansRecorded(c: World, s0: State, run: seq<Action>, n: Name)
    requires GoodRun(c, s0, run) && n in Exec(s0, run).dirs.processed
    ensures c.log(n).Doc? && c.log(n).json.Obj?
    ensures var t, f := Exec(s0, run).tables, c.log(n).json.fields;
            && EventId in f && EventType in f && Timestamp in f && SchemaVersion in f && f[EventId] == Str(n)
            && var kind := f[EventType];
            var filled := kind != Null && f[Timestamp] != Null && f[SchemaVersion] != Null;
            var full := filled && !(Severity in f && f[Severity] == Null);
            var known := kind.Str? && kind.s in c.reg;
            && (n in t.raw <==> filled)
            && (n in t.business <==> full && (!known || c.reg[kind.s].business))
            && (n in t.ai <==> full && (!known || c.reg[kind.s].ai))
  {
    ReachableInv(c, s0, run);
    var t := Exec(s0, run).tables;
    assert Done(c, t, n);
    ClassifyIs(c.log(n));
    assert n in t.raw ==> RawRowOk(c, n, t.raw[n]);
    assert n in t.business ==> BusinessRowOk(c, n, t.business[n]);
    assert n in t.ai ==> AiRowOk(c, n, t.ai[n]);
  }

  // What the columns say of the event the row was built from.

  predicate RawSays(k: RawColumns, f: Fields) {
    && Get(f, EventType) == k.eventType && Get(f, Timestamp) == k.timestamp && Get(f, SchemaVersion) == k.schemaVersion
    && k.source == f
  }

  predicate CommonSays(k: Common, f: Fields, trace: Fields) {
    && Get(f, EventType) == k.eventType && Get(f, Timestamp) == k.timestamp && Get(f, SchemaVersion) == k.schemaVersion
    && k.trace == trace && k.payload == (if Payload in f then f[Payload] else Obj(map[]))
    && k.severity == (if Severity in f then f[Severity] else Str("info"))
  }

  ghost predicate BusinessSays(k: BusinessColumns, f: Fields, trace: Fields, payload: Fields) {
    && CommonSays(k.common, f, trace)
    && k.milestone == Get(trace, MilestoneId) && k.workOrder == Get(trace, WorkOrderId) && k.task == Get(trace, TaskId)
    && exists p :: FirstOf(p, [Get(f, ProjectId), Get(trace, ProjectId), Get(payload, ProjectId)])
                   && k.project == if Truthy(p) then p else Get(trace, ProjectId)
  }

  ghost predicate AiSays(k: AiColumns, f: Fields, trace: Fields, payload: Fields) {
    && CommonSays(k.common, f, trace)
    && FirstOf(k.session, [Get(f, SessionId), Get(trace, SessionId), Get(payload, SessionId)])
    && FirstOf(k.skill, [Get(trace, SkillId), Get(trace, SkillSpecifier)])
    && FirstOf(k.workflow, [Get(trace, WorkflowId), Get(trace, StreamId), Get(payload, WorkflowId)])
    && FirstOf(k.agent, [Get(trace, AgentId), Get(payload, AgentId)]) && k.hook == Get(trace, HookId)
    && FirstOf(k.model, [Get(trace, ModelId), Get(payload, Model)])
    && FirstOf(k.project, [Get(f, ProjectId), Get(trace, ProjectId), Get(payload, ProjectId)])
  }

  lemma CommonColumns(f: Fields, trace: Fields)
    requires Holds(f, Trace, trace)
    ensures CommonSays(CommonOf(f), f, trace)
  {
  }

  lemma BusinessColumnsSay(row: Row, trace: Fields, payload: Fields)
    requires Holds(row.fields, Trace, trace) && Holds(row.fields, Payload, payload)
    ensures BusinessSays(BusinessOf(row), row.fields, trace, payload)
  {
    IdsAre(row.fields, trace, payload);
    CommonColumns(row.fields, trace);
    var p := ExtractIds(row.fields).project;
    assert BusinessOf(row).project == if Truthy(p) then p else Get(trace, ProjectId);
  }

  lemma AiColumnsSay(row: Row, trace: Fields, payload: Fields)
    requires Holds(row.fields, Trace, trace) && Holds(row.fields, Payload, payload)
    ensures AiSays(AiOf(row), row.fields, trace, payload)
  {
    IdsAre(row.fields, trace, payload);
    CommonColumns(row.fields, trace);
  }

  lemma RowFields(c: World, s0: State, run: seq<Action>, n: Name, f: Fields)
    requires GoodRun(c, s0, run) && c.log(n) == Doc(Obj(f))
    ensures var t := Exec(s0, run).tables;
            && (n in t.raw ==> t.raw[n].fields == f) && (n in t.business ==> t.business[n].fields == f)
            && (n in t.ai ==> t.ai[n].fields == f)
  {
    ReachableInv(c, s0, run);
    var t := Exec(s0, run).tables;
    ClassifyIs(c.log(n));
    assert n in t.raw ==> RawRowOk(c, n, t.raw[n]);
    assert n in t.business ==> BusinessRowOk(c, n, t.business[n]);
    assert n in t.ai ==> AiRowOk(c, n, t.ai[n]);
  }

  /** In every reachable state the columns of a row hold what the file published under its name says, the
      ids looked up in the envelope, the trace and the payload. */
  lemma RowsSay(c: World, s0: State, run: seq<Action>, n: Name, f: Fields, trace: Fields, payload: Fields)
    requires GoodRun(c, s0, run) && c.log(n) == Doc(Obj(f))
    requires Holds(f, Trace, trace) && Holds(f, Payload, payload)
    ensures var t := Exec(s0, run).tables;
            && (n in t.raw ==> RawSays(RawOf(t.raw[n]), f))
            && (n in t.business ==> BusinessSays(BusinessOf(t.business[n]), f, trace, payload))
            && (n in t.ai ==> AiSays(AiOf(t.ai[n]), f, trace, payload))
  {
    RowFields(c, s0, run, n, f);
    var t := Exec(s0, run).tables;
    if n in t.business {
      BusinessColumnsSay(t.business[n], trace, payload);
    }
    if n in t.ai {
      AiColumnsSay(t.ai[n], trace, payload);
    }
  }

  /** Raw first and paired: in every reachable state each canonical row has a raw row, the two rows
      of an event routed to both tables appear together, and all its rows carry one correlation id. */
  lemma RawFirstAndPaired(c: World, s0: State, run: seq<Action>, n: Name)
    requires GoodRun(c, s0, run)
    ensures var t := Exec(s0, run).tables;
            && (n in t.business || n in t.ai ==> n in t.raw)
            && (RoutedToBoth(c, n) ==> (n in t.business <==> n in t.ai))
            && (n in t.business && n in t.ai ==>
                  BusinessOf(t.business[n]).common.correlation == AiOf(t.ai[n]).common.correlation
               == RawOf(t.raw[n]).ids.correlation)
  {
    ReachableInv(c, s0, run);
    var t := Exec(s0, run).tables;
    if n in t.business && n in t.ai {
      assert RawRowOk(c, n, t.raw[n]) && BusinessRowOk(c, n, t.business[n]) && AiRowOk(c, n, t.ai[n]);
    }
  }

  /** In every reachable state the business row and the AI row of an event share every common column.
      Their project ids agree exactly when the resolved one is not an empty value that the business
      row replaces by the trace's. */
  lemma PairedRowsAgree(c: World, s0: State, run: seq<Action>, n: Name)
    requires GoodRun(c, s0, run) && n in Exec(s0, run).tables.business && n in Exec(s0, run).tables.ai
    ensures var t := Exec(s0, run).tables;
            var b, a, f := BusinessOf(t.business[n]), AiOf(t.ai[n]), t.ai[n].fields;
            && b.common == a.common
            && (b.project == a.project <==> Truthy(a.project) || Get(AsObject(Get(f, Trace)), ProjectId) == a.project)
  {
    ReachableInv(c, s0, run);
    var t := Exec(s0, run).tables;
    assert BusinessRowOk(c, n, t.business[n]) && AiRowOk(c, n, t.ai[n]);
  }

  /** At most once: a row present in some state of a run is in every later state, unchanged. */
  lemma RowsNeverChange(c: World, s0: State, run: seq<Action>, later: seq<Action>)
    requires GoodRun(c, s0, run) && HonestRun(c, later)
    ensures Extends(Exec(s0, run).tables, Exec(s0, run + later).tables)
  {
    ReachableInv(c, s0, run);
    ExecConcat(s0, run, later);
    RunInv(c, Exec(s0, run), later);
  }

  // ---------------------------------------------------------------- contents are conserved too

  /** The event is somewhere with exactly these bytes. */
  ghost predicate PresentAs(s: State, n: Name, content: Content) {
    || (n in s.dirs.inbox && s.dirs.inbox[n].content == content)
    || (n in s.dirs.processing && s.dirs.processing[n].content == content)
    || (n in s.dirs.processed && s.dirs.processed[n].content == content)
    || (n in s.dirs.failed && s.dirs.failed[n].content == content)
    || (exists w :: w in s.archives.weekly && InWeek(s.archives.weekly[w], n)
                    && s.archives.weekly[w].entries[n].content == content)
    || (exists y, w :: y in s.archives.yearly && InNested(s.archives.yearly[y], w, n)
                       && s.archives.yearly[y].weeks[w].entries[n].content == content)
  }

  lemma PresentAgrees(c: World, s: State, n: Name)
    requires !c.torn && Inv(c, s) && Present(s, n)
    ensures PresentAs(s, n, c.log(n))
  {
  }

  /** With one content per id and whole restores, the bytes of every event ever published survive
      every interleaving, error and death. */
  lemma BytesConserved(c: World, s0: State, run: seq<Action>, later: seq<Action>, n: Name)
    requires !c.torn && GoodRun(c, s0, run) && HonestRun(c, later)
    requires Present(Exec(s0, run), n)
    ensures PresentAs(Exec(s0, run + later), n, c.log(n))
  {
    ReachableInv(c, s0, run + later);
    ExecConcat(s0, run, later);
    ReachableInv(c, s0, run);
    NothingLost(Exec(s0, run), later);
    PresentAgrees(c, Exec(s0, run + later), n);
  }
}

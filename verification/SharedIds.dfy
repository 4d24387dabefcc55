/** Several contents under one event id: "processed means recorded" holds of a name exactly when all
    the contents published under it have the same effect on the tables. */
module SharedIds {
  import opened Documents
  import opened Rows
  import opened Spool
  import opened Counterexamples

  /** What a content leaves in the three tables, if it is accepted at all. */
  datatype Effect = Refused | Leaves(raw: bool, business: bool, ai: bool)

  function FieldsEffect(reg: Registry, f: Fields): Effect {
    var routes := Routes(reg, Get(f, EventType));
    Leaves(RawComplete(f), CanonicalComplete(f) && routes.business, CanonicalComplete(f) && routes.ai)
  }

  function EffectOf(reg: Registry, c: Content): Effect {
    match Classify(c)
    case Accepted(f) => FieldsEffect(reg, f)
    case _ => Refused
  }

  /** The contents that may be published under each name. */
  datatype Offers = Offers(has: (Name, Content) -> bool, reg: Registry)

  predicate Named(n: Name, c: Content) {
    Classify(c).Accepted? ==> Get(Classify(c).fields, EventId) == Str(n)
  }

  /** An accepted document's id is the name of its file. */
  ghost predicate Sound(o: Offers) {
    forall n, c :: o.has(n, c) ==> Named(n, c)
  }

  /** All contents of the name are refused, or all are accepted and leave rows in the same tables. */
  ghost predicate Alike(o: Offers, n: Name) {
    forall c, d :: o.has(n, c) && o.has(n, d) ==> EffectOf(o.reg, c) == EffectOf(o.reg, d)
  }

  /** Only offered contents are published, and restores write whole files. */
  predicate Offered(o: Offers, a: Action) {
    match a
    case Publish(n, file) => o.has(n, file.content)
    case Restore(_, RestoreCopy(_, _, cut)) => cut == Whole
    case _ => true
  }

  ghost predicate OfferedRun(o: Offers, run: seq<Action>) {
    forall i :: 0 <= i < |run| ==> Offered(o, run[i])
  }

  /** The event has exactly the rows its content calls for. */
  predicate RecordedAs(t: Tables, n: Name, e: Effect) {
    e.Leaves? && (n in t.raw <==> e.raw) && (n in t.business <==> e.business) && (n in t.ai <==> e.ai)
  }

  /** In every state of every run, a file in processed/ is accepted and recorded as it says. */
  ghost predicate ProcessedMeansRecorded(o: Offers, n: Name) {
    forall run :: OfferedRun(o, run) ==> HoldsAfter(o.reg, run, n)
  }

  ghost predicate HoldsAfter(reg: Registry, run: seq<Action>, n: Name) {
    var s := Exec(Fresh(reg), run);
    n in s.dirs.processed ==> RecordedAs(s.tables, n, EffectOf(reg, s.dirs.processed[n].content))
  }

  // ---------------------------------------------------------------- different effects break it

  /** After a first accepted content has been recorded, a second one is claimed over it and finished in
      its place. */
  lemma SecondContent(o: Offers, n: Name, c: Content, d: Content) returns (run: seq<Action>)
    requires o.has(n, c) && o.has(n, d) && Classify(c).Accepted? && Named(n, c)
    requires EffectOf(o.reg, c) != EffectOf(o.reg, d)
    ensures OfferedRun(o, run) && !HoldsAfter(o.reg, run, n)
  {
    var first, second, f := File(c, 0), File(d, 0), Classify(c).fields;
    run := FirstHalf(n, first) + SecondHalf(n, second);
    var t := InsertCanonical(InsertRaw(EMPTY_TABLES, f, 0), o.reg, f, 0);
    ExecConcat(Fresh(o.reg), FirstHalf(n, first), SecondHalf(n, second));
    FirstHalfRuns(o.reg, n, first, f);
    SecondHalfRuns(Fresh(o.reg), n, second, f, first, t);
    assert RecordedAs(t, n, EffectOf(o.reg, c));
  }

  lemma UnlikeBreaks(o: Offers, n: Name)
    requires Sound(o) && !Alike(o, n)
    ensures !ProcessedMeansRecorded(o, n)
  {
    var c, d :| o.has(n, c) && o.has(n, d) && EffectOf(o.reg, c) != EffectOf(o.reg, d);
    assert Named(n, c) && Named(n, d);
    if Classify(c).Accepted? {
      var run := SecondContent(o, n, c, d);
    } else {
      var run := SecondContent(o, n, d, c);
    }
  }

  // ---------------------------------------------------------------- the invariant

  ghost predicate AllOffered(o: Offers, m: map<Name, File>) {
    forall n :: n in m ==> o.has(n, m[n].content)
  }

  ghost predicate ZipOffered(o: Offers, z: WeekZip) { z.intact ==> AllOffered(o, z.entries) }

  ghost predicate ZipsOffered(o: Offers, weeks: map<int, WeekZip>) {
    forall w :: w in weeks ==> ZipOffered(o, weeks[w])
  }

  ghost predicate YearOffered(o: Offers, y: YearZip) { y.intact ==> ZipsOffered(o, y.weeks) }

  ghost predicate ArchivesOffered(o: Offers, a: Archives) {
    ZipsOffered(o, a.weekly) && forall y :: y in a.yearly ==> YearOffered(o, a.yearly[y])
  }

  ghost predicate RunnerOffered(o: Offers, r: Runner) {
    match r
    case Zipping(_, _, built) => AllOffered(o, built)
    case Published(_, _, built) => AllOffered(o, built)
    case YearZipping(_, _, gathered) => ZipsOffered(o, gathered)
    case YearPublished(_, _, gathered) => ZipsOffered(o, gathered)
    case _ => true
  }

  ghost predicate DirsOffered(o: Offers, d: Dirs) {
    AllOffered(o, d.inbox) && AllOffered(o, d.processing) && AllOffered(o, d.processed) && AllOffered(o, d.failed)
  }

  ghost predicate RestoresOffered(o: Offers, restores: map<nat, map<Name, File>>) {
    forall r :: r in restores ==> AllOffered(o, restores[r])
  }

  /** Every file anywhere holds an offered content. */
  ghost predicate FilesOffered(o: Offers, s: State) {
    && DirsOffered(o, s.dirs) && ArchivesOffered(o, s.archives) && RunnerOffered(o, s.runner)
    && RestoresOffered(o, s.restores)
  }

  /** The tables hold no row of the event that its effect does not call for. */
  predicate Within(t: Tables, n: Name, e: Effect) {
    && (n in t.raw ==> e.Leaves? && e.raw) && (n in t.business ==> e.Leaves? && e.business)
    && (n in t.ai ==> e.Leaves? && e.ai)
  }

  predicate Full(t: Tables, n: Name, e: Effect) {
    e.Leaves? && (e.raw ==> n in t.raw) && (e.business ==> n in t.business) && (e.ai ==> n in t.ai)
  }

  /** A run has read its own name's document; if the name is n, the document has effect e, and what
      the run has recorded so far is there. */
  predicate PcAs(o: Offers, t: Tables, pc: Pc, n: Name, e: Effect) {
    match pc
    case Parsed(m, f) => Get(f, EventId) == Str(m) && (m == n ==> FieldsEffect(o.reg, f) == e)
    case RawDone(m, f) =>
      Get(f, EventId) == Str(m) && (m == n ==> FieldsEffect(o.reg, f) == e && (e.raw ==> n in t.raw))
    case Recorded(m, _) => m == n ==> Full(t, n, e)
    case _ => true
  }

  ghost predicate WorkersAs(o: Offers, s: State, n: Name, e: Effect) {
    forall w :: w in s.workers ==> PcAs(o, s.tables, s.workers[w].pc, n, e)
  }

  ghost predicate NameAs(o: Offers, s: State, n: Name, e: Effect) {
    && Within(s.tables, n, e) && (n in s.dirs.processed ==> Full(s.tables, n, e))
    && WorkersAs(o, s, n, e)
  }

  ghost predicate Inv(o: Offers, s: State, n: Name, e: Effect) {
    s.reg == o.reg && FilesOffered(o, s) && NameAs(o, s, n, e)
  }

  ghost predicate HasEffect(o: Offers, n: Name, e: Effect) {
    forall c :: o.has(n, c) ==> EffectOf(o.reg, c) == e
  }

  // ---------------------------------------------------------------- steps

  lemma RenamesOffered(o: Offers, d: Dirs, n: Name)
    requires DirsOffered(o, d)
    ensures n in d.inbox ==> DirsOffered(o, ToProcessing(d, n)) && DirsOffered(o, InboxToFailed(d, n))
    ensures n in d.processing ==>
              DirsOffered(o, ToProcessed(d, n)) && DirsOffered(o, BackToInbox(d, n))
              && DirsOffered(o, ProcessingToFailed(d, n))
  {
  }

  /** A step that leaves archives, runner and restores, grows the tables within the effect, and moves one
      run. */
  lemma MoveAs(o: Offers, s: State, d: Dirs, t: Tables, w: nat, wk: Worker, n: Name, e: Effect)
    requires Inv(o, s, n, e) && DirsOffered(o, d) && Within(t, n, e)
    requires n in s.tables.raw ==> n in t.raw
    requires n in s.tables.business ==> n in t.business
    requires n in s.tables.ai ==> n in t.ai
    requires n in d.processed && n !in s.dirs.processed ==> Full(t, n, e)
    requires PcAs(o, t, wk.pc, n, e)
    ensures Inv(o, SetWorker(s.(dirs := d, tables := t), w, wk), n, e)
  {
  }

  lemma ReadAs(o: Offers, s: State, w: nat, fault: Fault, n: Name, e: Effect)
    requires Sound(o) && HasEffect(o, n, e) && Inv(o, s, n, e) && w in s.workers
    ensures Inv(o, StepRead(s, w, fault), n, e)
  {
    var wk := s.workers[w];
    if wk.pc.Claimed? {
      var m := wk.pc.name;
      var v := if fault != Fine || m !in s.dirs.processing then Unparsed else Classify(s.dirs.processing[m].content);
      if v.Accepted? {
        assert o.has(m, s.dirs.processing[m].content) && Named(m, s.dirs.processing[m].content);
      }
      MoveAs(o, s, s.dirs, s.tables, w, AfterRead(wk, m, v), n, e);
    }
  }

  lemma ClaimAs(o: Offers, s: State, w: nat, fault: Fault, n: Name, e: Effect)
    requires Inv(o, s, n, e) && w in s.workers
    ensures Inv(o, StepClaim(s, w, fault), n, e)
  {
    var wk := s.workers[w];
    var s' := StepClaim(s, w, fault);
    if s' != s {
      RenamesOffered(o, s.dirs, wk.todo[0]);
      MoveAs(o, s, s'.dirs, s.tables, w, s'.workers[w], n, e);
    }
  }

  lemma WriteRawAs(o: Offers, s: State, w: nat, now: int, fault: Fault, n: Name, e: Effect)
    requires Inv(o, s, n, e) && w in s.workers
    ensures Inv(o, StepWriteRaw(s, w, now, fault), n, e)
  {
    var wk := s.workers[w];
    if wk.pc.Parsed? {
      assert PcAs(o, s.tables, wk.pc, n, e);
      var s' := StepWriteRaw(s, w, now, fault);
      MoveAs(o, s, s.dirs, s'.tables, w, s'.workers[w], n, e);
    }
  }

  lemma WriteCanonicalAs(o: Offers, s: State, w: nat, now: int, fault: Fault, n: Name, e: Effect)
    requires Inv(o, s, n, e) && w in s.workers
    ensures Inv(o, StepWriteCanonical(s, w, now, fault), n, e)
  {
    var wk := s.workers[w];
    if wk.pc.RawDone? {
      assert PcAs(o, s.tables, wk.pc, n, e);
      var s' := StepWriteCanonical(s, w, now, fault);
      MoveAs(o, s, s.dirs, s'.tables, w, s'.workers[w], n, e);
    }
  }

  lemma FinishAs(o: Offers, s: State, w: nat, fault: Fault, n: Name, e: Effect)
    requires Inv(o, s, n, e) && w in s.workers
    ensures Inv(o, StepFinish(s, w, fault), n, e)
  {
    var wk := s.workers[w];
    if wk.pc.Recorded? {
      assert PcAs(o, s.tables, wk.pc, n, e);
      RenamesOffered(o, s.dirs, wk.pc.name);
      var s' := StepFinish(s, w, fault);
      MoveAs(o, s, s'.dirs, s.tables, w, s'.workers[w], n, e);
    }
  }

  lemma FallbackAs(o: Offers, s: State, w: nat, m: IngestMove, n: Name, e: Effect)
    requires Inv(o, s, n, e) && w in s.workers && (m.PutBack? || m.FailMove? || m.OuterMove?)
    ensures Inv(o, StepIngest(s, w, m), n, e)
  {
    var wk := s.workers[w];
    if wk.pc.RawFailed? || wk.pc.Failing? || wk.pc.Outer? {
      RenamesOffered(o, s.dirs, wk.pc.name);
      var s' := StepIngest(s, w, m);
      if s' != s {
        MoveAs(o, s, s'.dirs, s.tables, w, s'.workers[w], n, e);
      }
    }
  }

  lemma IngestAs(o: Offers, s: State, w: nat, m: IngestMove, n: Name, e: Effect)
    requires Sound(o) && HasEffect(o, n, e) && Inv(o, s, n, e) && w in s.workers
    ensures Inv(o, StepIngest(s, w, m), n, e)
  {
    match m
    case Claim(fault) => ClaimAs(o, s, w, fault, n, e);
    case Read(fault) => ReadAs(o, s, w, fault, n, e);
    case WriteRaw(now, fault) => WriteRawAs(o, s, w, now, fault, n, e);
    case WriteCanonical(now, fault) => WriteCanonicalAs(o, s, w, now, fault, n, e);
    case Finish(fault) => FinishAs(o, s, w, fault, n, e);
    case _ => FallbackAs(o, s, w, m, n, e);
  }

  lemma ArchiveAs(o: Offers, s: State, m: ArchiveMove, n: Name, e: Effect)
    requires Inv(o, s, n, e)
    ensures Inv(o, StepArchive(s, m), n, e)
  {
    match m
    case ArchiveBegin(_, _) =>
    case ArchiveAdd(_) =>
    case ArchivePublish(_) =>
    case ArchiveVerify(_, _) =>
    case ArchiveDelete(_, _) =>
  }

  lemma YearAs(o: Offers, s: State, m: YearMove, n: Name, e: Effect)
    requires Inv(o, s, n, e)
    ensures Inv(o, StepYear(s, m), n, e)
  {
    match m
    case YearBegin(_, _) =>
    case YearAdd(_) =>
    case YearPublish(_) =>
    case YearVerify(_, _) =>
    case YearDelete(_, _) =>
  }

  lemma RestoreAs(o: Offers, s: State, r: nat, m: RestoreMove, n: Name, e: Effect)
    requires Inv(o, s, n, e) && Offered(o, Restore(r, m))
    ensures Inv(o, StepRestore(s, r, m), n, e)
  {
  }

  lemma StepAs(o: Offers, s: State, a: Action, n: Name, e: Effect)
    requires Sound(o) && HasEffect(o, n, e) && Inv(o, s, n, e) && Offered(o, a)
    ensures Inv(o, Step(s, a), n, e)
  {
    match a
    case Ingest(w, m) =>
      if w in s.workers {
        IngestAs(o, s, w, m, n, e);
      }
    case Archive(m) => ArchiveAs(o, s, m, n, e);
    case Consolidate(m) => YearAs(o, s, m, n, e);
    case Restore(r, m) => RestoreAs(o, s, r, m, n, e);
    case _ =>
  }

  lemma {:induction false} RunAs(o: Offers, s: State, run: seq<Action>, n: Name, e: Effect)
    requires Sound(o) && HasEffect(o, n, e) && Inv(o, s, n, e) && OfferedRun(o, run)
    ensures Inv(o, Exec(s, run), n, e)
    decreases |run|
  {
    if run != [] {
      RunAs(o, s, run[..|run| - 1], n, e);
      StepAs(o, Exec(s, run[..|run| - 1]), run[|run| - 1], n, e);
    }
  }

  // ---------------------------------------------------------------- the exact condition

  lemma AlikeHolds(o: Offers, n: Name, run: seq<Action>)
    requires Sound(o) && Alike(o, n) && OfferedRun(o, run)
    ensures HoldsAfter(o.reg, run, n)
  {
    var s := Exec(Fresh(o.reg), run);
    var e := if c :| o.has(n, c) then EffectOf(o.reg, c) else Refused;
    assert HasEffect(o, n, e);
    RunAs(o, Fresh(o.reg), run, n, e);
    if n in s.dirs.processed {
      assert o.has(n, s.dirs.processed[n].content);
    }
  }

  /** "Processed means recorded" holds of a name in every run exactly when the contents published under
      it are all refused, or are all accepted and agree on which tables they leave a row in. */
  lemma OneEffectPerId(o: Offers, n: Name)
    requires Sound(o)
    ensures ProcessedMeansRecorded(o, n) <==> Alike(o, n)
  {
    if Alike(o, n) {
      forall run | OfferedRun(o, run) ensures HoldsAfter(o.reg, run, n) {
        AlikeHolds(o, n, run);
      }
    } else {
      UnlikeBreaks(o, n);
    }
  }
}

/** The spool as a transition system: five directories, three tables, any number of overlapping
    ingest runs and restores, and one lifecycle runner.  An action names who moves and what the
    environment does to the move (locks, missing files, other errors, clock); an action that is
    not enabled changes nothing, so every action sequence is a run. */
module Spool {
  import opened Collections
  import opened Documents
  import opened Rows

  /** The stem of an event file: spool/<name>.json. */
  type Name = string

  /** Rename keeps the modification time, so it travels with the file. */
  datatype File = File(content: Content, mtime: int)

  type Dir = map<Name, File>

  /** A zip on disk.  `intact` is what a CRC pass over every entry reports. */
  datatype WeekZip = WeekZip(entries: map<Name, File>, intact: bool)

  /** A yearly archive holds weekly zips, keyed by the Monday they are named after. */
  datatype YearZip = YearZip(weeks: map<int, WeekZip>, intact: bool)

  datatype Dirs = Dirs(inbox: Dir, processing: Dir, processed: Dir, failed: Dir)

  datatype Archives = Archives(weekly: map<int, WeekZip>, yearly: map<int, YearZip>)

  // ---------------------------------------------------------------- processes

  /** How one system call or database write goes. */
  datatype Fault = Fine | Locked | Gone | Broken

  datatype Counters = Counters(processed: nat, failed: nat, skipped: nat, lockError: bool)

  const ZERO := Counters(0, 0, 0, false)

  /** Where an ingest run stands with the file it works on. */
  datatype Pc =
    | Next                            // about to take the next listed file
    | Claimed(name: Name)             // renamed into processing/, not read yet
    | Parsed(name: Name, fields: Fields)
    | RawFailed(name: Name, fault: Fault)
    | RawDone(name: Name, fields: Fields)
    | Recorded(name: Name, fields: Fields)
    | Failing(name: Name)             // about to move processing/<name> to failed/
    | Outer(name: Name)               // about to move spool/<name> to failed/

  datatype Worker = Worker(todo: seq<Name>, pc: Pc, result: Counters, listed: nat)

  /** The lifecycle runner, archiving a week or consolidating a year. */
  datatype Runner =
    | Idle
    | Zipping(week: int, files: set<Name>, built: map<Name, File>)
    | Published(week: int, files: set<Name>, built: map<Name, File>)
    | Deleting(week: int, left: set<Name>)
    | YearZipping(year: int, zips: set<int>, gathered: map<int, WeekZip>)
    | YearPublished(year: int, zips: set<int>, gathered: map<int, WeekZip>)
    | YearDeleting(year: int, weeksLeft: set<int>)

  datatype State = State(dirs: Dirs, archives: Archives, tables: Tables, reg: Registry,
                         workers: map<nat, Worker>, runner: Runner, restores: map<nat, map<Name, File>>)

  /** A restore writes a member in place; a write that dies leaves a prefix of the bytes, cut
      between characters or inside one, and no proper prefix of an object is valid JSON. */
  datatype Cut = Whole | CutText | CutBytes

  function Written(c: Content, cut: Cut): Content {
    match cut
    case Whole => c
    case CutText => NotJson
    case CutBytes => NotUtf8
  }

  // ---------------------------------------------------------------- actions

  /** What an ingest run does next, and how the call goes. */
  datatype IngestMove =
    | Claim(fault: Fault)
    | Read(fault: Fault)
    | WriteRaw(now: int, fault: Fault)
    | PutBack(ok: bool)
    | WriteCanonical(now: int, fault: Fault)
    | Finish(fault: Fault)
    | FailMove(ok: bool)
    | OuterMove(ok: bool)

  datatype ArchiveMove =
    | ArchiveBegin(week: int, files: set<Name>)
    | ArchiveAdd(name: Name)
    | ArchivePublish(zip: WeekZip)
    | ArchiveVerify(readable: bool, unlinked: bool)
    | ArchiveDelete(name: Name, ok: bool)

  datatype YearMove =
    | YearBegin(year: int, weeks: set<int>)
    | YearAdd(week: int)
    | YearPublish(zip: YearZip)
    | YearVerify(readable: bool, unlinked: bool)
    | YearDelete(week: int, ok: bool)

  datatype RestoreMove =
    | RestoreOpen(week: int)
    | RestoreOpenNested(year: int, week: int)
    | RestoreCopy(name: Name, now: int, cut: Cut)
    | RestoreClose

  datatype Action =
    | Publish(name: Name, file: File)
    | Begin(w: nat, listing: seq<Name>)
    | Ingest(w: nat, ingest: IngestMove)
    | Die(w: nat)
    | Archive(archive: ArchiveMove)
    | Consolidate(year: YearMove)
    | LifecycleStop
    | Restore(r: nat, restore: RestoreMove)

  // ---------------------------------------------------------------- renames

  // os.replace takes the name out of one directory and overwrites it in the other.

  function ToProcessing(d: Dirs, n: Name): Dirs
    requires n in d.inbox
  {
    d.(inbox := d.inbox - {n}, processing := d.processing[n := d.inbox[n]])
  }

  function ToProcessed(d: Dirs, n: Name): Dirs
    requires n in d.processing
  {
    d.(processing := d.processing - {n}, processed := d.processed[n := d.processing[n]])
  }

  function BackToInbox(d: Dirs, n: Name): Dirs
    requires n in d.processing
  {
    d.(processing := d.processing - {n}, inbox := d.inbox[n := d.processing[n]])
  }

  function ProcessingToFailed(d: Dirs, n: Name): Dirs
    requires n in d.processing
  {
    d.(processing := d.processing - {n}, failed := d.failed[n := d.processing[n]])
  }

  function InboxToFailed(d: Dirs, n: Name): Dirs
    requires n in d.inbox
  {
    d.(inbox := d.inbox - {n}, failed := d.failed[n := d.inbox[n]])
  }

  // ---------------------------------------------------------------- ingest steps

  function Skip(c: Counters, lock: bool): Counters {
    c.(skipped := c.skipped + 1, lockError := c.lockError || lock)
  }

  function Failed(c: Counters): Counters { c.(failed := c.failed + 1) }

  function Processed(c: Counters): Counters { c.(processed := c.processed + 1) }

  /** What the handlers around one file do with an exception that reaches them. */
  function Raise(wk: Worker, n: Name, fault: Fault): Worker
  {
    match fault
    case Locked => wk.(pc := Next, result := Skip(wk.result, true))
    case Gone => wk.(pc := Next, result := Skip(wk.result, false))
    case _ => wk.(pc := Outer(n))
  }

  function SetWorker(s: State, w: nat, wk: Worker): State {
    s.(workers := s.workers[w := wk])
  }

  function StepClaim(s: State, w: nat, fault: Fault): State
    requires w in s.workers
  {
    var wk := s.workers[w];
    if !wk.pc.Next? || wk.todo == [] then s
    else
      var n := wk.todo[0];
      var wk' := wk.(todo := wk.todo[1..]);
      if fault == Fine && n in s.dirs.inbox then
        SetWorker(s.(dirs := ToProcessing(s.dirs, n)), w, wk'.(pc := Claimed(n)))
      else
        SetWorker(s, w, Raise(wk', n, if n !in s.dirs.inbox then Gone else Broken))
  }

  /** A parse error and a rejected document go to failed/ from processing/; other exceptions reach
      the outer handlers. */
  function AfterRead(wk: Worker, n: Name, v: Verdict): Worker {
    match v
    case Accepted(f) => wk.(pc := Parsed(n, f))
    case Escapes => Raise(wk, n, Broken)
    case _ => wk.(pc := Failing(n))
  }

  function StepRead(s: State, w: nat, fault: Fault): State
    requires w in s.workers
  {
    var wk := s.workers[w];
    if !wk.pc.Claimed? then s
    else
      var n := wk.pc.name;
      var v := if fault != Fine || n !in s.dirs.processing then Unparsed
               else Classify(s.dirs.processing[n].content);
      SetWorker(s, w, AfterRead(wk, n, v))
  }

  function StepWriteRaw(s: State, w: nat, now: int, fault: Fault): State
    requires w in s.workers
  {
    var wk := s.workers[w];
    if !wk.pc.Parsed? then s
    else
      var n, f := wk.pc.name, wk.pc.fields;
      if fault == Fine then
        SetWorker(s.(tables := InsertRaw(s.tables, f, now)), w, wk.(pc := RawDone(n, f)))
      else
        SetWorker(s, w, wk.(pc := RawFailed(n, fault)))
  }

  /** Only a failed raw write puts the file back; the exception is then handled as usual. */
  function StepPutBack(s: State, w: nat, ok: bool): State
    requires w in s.workers
  {
    var wk := s.workers[w];
    if !wk.pc.RawFailed? then s
    else
      var n := wk.pc.name;
      var d := if ok && n in s.dirs.processing then BackToInbox(s.dirs, n) else s.dirs;
      SetWorker(s.(dirs := d), w, Raise(wk, n, wk.pc.fault))
  }

  /** A raw-only event opens no connection, so nothing can go wrong here. */
  function StepWriteCanonical(s: State, w: nat, now: int, fault: Fault): State
    requires w in s.workers
  {
    var wk := s.workers[w];
    if !wk.pc.RawDone? then s
    else
      var n, f := wk.pc.name, wk.pc.fields;
      if fault == Fine || RawOnly(s.reg, f) then
        SetWorker(s.(tables := InsertCanonical(s.tables, s.reg, f, now)), w, wk.(pc := Recorded(n, f)))
      else
        SetWorker(s, w, Raise(wk, n, fault))
  }

  function StepFinish(s: State, w: nat, fault: Fault): State
    requires w in s.workers
  {
    var wk := s.workers[w];
    if !wk.pc.Recorded? then s
    else
      var n := wk.pc.name;
      if fault == Fine && n in s.dirs.processing then
        SetWorker(s.(dirs := ToProcessed(s.dirs, n)), w, wk.(pc := Next, result := Processed(wk.result)))
      else
        SetWorker(s, w, Raise(wk, n, if n !in s.dirs.processing then Gone else Broken))
  }

  function StepFailMove(s: State, w: nat, ok: bool): State
    requires w in s.workers
  {
    var wk := s.workers[w];
    if !wk.pc.Failing? then s
    else
      var n := wk.pc.name;
      var d := if ok && n in s.dirs.processing then ProcessingToFailed(s.dirs, n) else s.dirs;
      SetWorker(s.(dirs := d), w, wk.(pc := Next, result := Failed(wk.result)))
  }

  function StepOuterMove(s: State, w: nat, ok: bool): State
    requires w in s.workers
  {
    var wk := s.workers[w];
    if !wk.pc.Outer? then s
    else
      var n := wk.pc.name;
      var d := if ok && n in s.dirs.inbox then InboxToFailed(s.dirs, n) else s.dirs;
      SetWorker(s.(dirs := d), w, wk.(pc := Next, result := Failed(wk.result)))
  }

  function StepBegin(s: State, w: nat, listing: seq<Name>): State {
    if w in s.workers || !Distinct(listing) then s
    else SetWorker(s, w, Worker(listing, Next, ZERO, |listing|))
  }

  function StepIngest(s: State, w: nat, m: IngestMove): State
    requires w in s.workers
  {
    match m
    case Claim(fault) => StepClaim(s, w, fault)
    case Read(fault) => StepRead(s, w, fault)
    case WriteRaw(now, fault) => StepWriteRaw(s, w, now, fault)
    case PutBack(ok) => StepPutBack(s, w, ok)
    case WriteCanonical(now, fault) => StepWriteCanonical(s, w, now, fault)
    case Finish(fault) => StepFinish(s, w, fault)
    case FailMove(ok) => StepFailMove(s, w, ok)
    case OuterMove(ok) => StepOuterMove(s, w, ok)
  }

  // ---------------------------------------------------------------- lifecycle steps

  /** The zip that reaches the disk may be damaged; one that passes its CRC pass holds nothing
      but entries that were written to it. */
  ghost predicate Plausible<K, V>(entries: map<K, V>, intact: bool, built: map<K, V>) {
    intact ==> SubMap(entries, built)
  }

  ghost function StepArchive(s: State, m: ArchiveMove): State
  {
    match m
    case ArchiveBegin(week, files) =>
      if s.runner.Idle? && week !in s.archives.weekly && files != {} && files <= s.dirs.processed.Keys then
        s.(runner := Zipping(week, files, map[]))
      else s
    case ArchiveAdd(n) =>
      if s.runner.Zipping? && n in s.runner.files && n in s.dirs.processed then
        s.(runner := Zipping(s.runner.week, s.runner.files, s.runner.built[n := s.dirs.processed[n]]))
      else s
    case ArchivePublish(zip) =>
      if s.runner.Zipping? && s.runner.built.Keys == s.runner.files
         && Plausible(zip.entries, zip.intact, s.runner.built) then
        s.(runner := Published(s.runner.week, s.runner.files, s.runner.built),
        archives := s.archives.(weekly := s.archives.weekly[s.runner.week := zip]))
      else s
    case ArchiveVerify(readable, unlinked) =>
      if s.runner.Published? && s.runner.week in s.archives.weekly then
        var zip := s.archives.weekly[s.runner.week];
        if readable && zip.intact && |zip.entries| == |s.runner.files| then
          s.(runner := Deleting(s.runner.week, s.runner.files))
        else if unlinked then
          s.(runner := Idle, archives := s.archives.(weekly := s.archives.weekly - {s.runner.week}))
        else s.(runner := Idle)
      else s
    case ArchiveDelete(n, ok) =>
      if s.runner.Deleting? && n in s.runner.left then
        var s' := s.(runner := Deleting(s.runner.week, s.runner.left - {n}));
        if ok then s'.(dirs := s'.dirs.(processed := s'.dirs.processed - {n})) else s'
      else s
  }

  ghost function StepYear(s: State, m: YearMove): State
  {
    match m
    case YearBegin(year, weeks) =>
      if s.runner.Idle? && year !in s.archives.yearly && weeks != {} && weeks <= s.archives.weekly.Keys then
        s.(runner := YearZipping(year, weeks, map[]))
      else s
    case YearAdd(week) =>
      if s.runner.YearZipping? && week in s.runner.zips && week in s.archives.weekly then
        s.(runner := YearZipping(s.runner.year, s.runner.zips, s.runner.gathered[week := s.archives.weekly[week]]))
      else s
    case YearPublish(zip) =>
      if s.runner.YearZipping? && s.runner.gathered.Keys == s.runner.zips
         && Plausible(zip.weeks, zip.intact, s.runner.gathered) then
        s.(runner := YearPublished(s.runner.year, s.runner.zips, s.runner.gathered),
        archives := s.archives.(yearly := s.archives.yearly[s.runner.year := zip]))
      else s
    case YearVerify(readable, unlinked) =>
      if s.runner.YearPublished? && s.runner.year in s.archives.yearly then
        var zip := s.archives.yearly[s.runner.year];
        if readable && zip.intact && |zip.weeks| == |s.runner.zips| then
          s.(runner := YearDeleting(s.runner.year, s.runner.zips))
        else if unlinked then
          s.(runner := Idle, archives := s.archives.(yearly := s.archives.yearly - {s.runner.year}))
        else s.(runner := Idle)
      else s
    case YearDelete(week, ok) =>
      if s.runner.YearDeleting? && week in s.runner.weeksLeft then
        var s' := s.(runner := YearDeleting(s.runner.year, s.runner.weeksLeft - {week}));
        if ok then s'.(archives := s'.archives.(weekly := s'.archives.weekly - {week})) else s'
      else s
  }

  // ---------------------------------------------------------------- restore steps

  /** Copying an archive member: the exists check and the write are separate calls, so the write
      may land on a file published in between. */
  function StepRestore(s: State, r: nat, m: RestoreMove): State {
    match m
    case RestoreOpen(week) =>
      if week in s.archives.weekly && s.archives.weekly[week].intact then
        s.(restores := s.restores[r := s.archives.weekly[week].entries])
      else s
    case RestoreOpenNested(year, week) =>
      if year in s.archives.yearly && s.archives.yearly[year].intact
         && week in s.archives.yearly[year].weeks && s.archives.yearly[year].weeks[week].intact then
        s.(restores := s.restores[r := s.archives.yearly[year].weeks[week].entries])
      else s
    case RestoreCopy(n, now, cut) =>
      if r in s.restores && n in s.restores[r] then
        s.(dirs := s.dirs.(inbox := s.dirs.inbox[n := File(Written(s.restores[r][n].content, cut), now)]))
      else s
    case RestoreClose => s.(restores := s.restores - {r})
  }

  // ---------------------------------------------------------------- runs

  ghost function Step(s: State, a: Action): State {
    match a
    case Publish(n, file) => s.(dirs := s.dirs.(inbox := s.dirs.inbox[n := file]))
    case Begin(w, listing) => StepBegin(s, w, listing)
    case Ingest(w, m) => if w in s.workers then StepIngest(s, w, m) else s
    case Die(w) => s.(workers := s.workers - {w})
    case Archive(m) => StepArchive(s, m)
    case Consolidate(m) => StepYear(s, m)
    case LifecycleStop => s.(runner := Idle)
    case Restore(r, m) => StepRestore(s, r, m)
  }

  ghost function Exec(s: State, run: seq<Action>): State
    decreases |run|
  {
    if run == [] then s else Step(Exec(s, run[..|run| - 1]), run[|run| - 1])
  }

  lemma {:induction false} ExecConcat(s: State, a: seq<Action>, b: seq<Action>)
    ensures Exec(s, a + b) == Exec(Exec(s, a), b)
    decreases |b|
  {
    if b == [] {
      assert a + b == a;
    } else {
      ExecConcat(s, a, b[..|b| - 1]);
      assert (a + b)[..|a + b| - 1] == a + b[..|b| - 1];
    }
  }

  lemma ExecNext(s: State, run: seq<Action>, a: Action)
    ensures Exec(s, run + [a]) == Step(Exec(s, run), a)
  {
    assert (run + [a])[..|run + [a]| - 1] == run;
  }

  lemma ExecOne(s: State, a: Action)
    ensures Exec(s, [a]) == Step(s, a)
  {
    assert [] + [a] == [a];
    ExecNext(s, [], a);
  }

  lemma ExecThree(s: State, a: seq<Action>, b: seq<Action>, c: seq<Action>)
    ensures Exec(s, a + b + c) == Exec(Exec(Exec(s, a), b), c)
  {
    ExecConcat(s, a + b, c);
    ExecConcat(s, a, b);
  }
}

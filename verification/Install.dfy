/** The versioned self-installer: build an app, smoke-test it, back up and migrate the authority,
    then point `current` at it; and roll back to the app before.  Every step may fail (an exception,
    with the clean-up the code does) or be the one at which the process dies. */
module Install {
  import opened Collections

  type Id = string

  /** What app.json says. */
  datatype Record = Record(version: string, sha: string)

  /** A directory app/<id>: whether its venv has a Python, and its record. */
  datatype App = App(python: bool, record: Option<Record>)

  datatype Home = Home(apps: map<Id, App>, current: Option<Id>, staged: Option<Id>, previous: Option<Id>,
                       installed: Option<Record>, launcher: bool, schema: Option<int>)

  predicate Complete(h: Home, id: Id) {
    id in h.apps && h.apps[id].python && h.apps[id].record.Some?
  }

  // ---------------------------------------------------------------- the environment

  datatype Fate = Go | Fail | Die

  datatype Phase =
    | RemoveOld | Export | BuildWheel | CreateVenv | InstallWheel | WriteRecord | RemoveFailed | RemoveBuild
    | Smoke | Probe | Backup | Migrate
    | WritePrevious | RemoveStaged | MakeStaged | RemoveCurrent | Swap | Relink | WriteInstalled | WriteLauncher

  /** `refused`: a check before any write says no.  `keepsPython`, `keepsRecord`: what a removal or a
      venv creation that stops half way leaves.  `migrated`: the schema after migrating, and
      `migrates`: whether a migration that fails got that far. */
  datatype Env = Env(windows: bool, refused: bool, fate: Phase -> Fate, keepsPython: bool, keepsRecord: bool,
                     migrated: int, migrates: bool)

  datatype How = Done | Raised | Died

  datatype End = End(home: Home, how: How)

  function Stop(h: Home, f: Fate): End {
    End(h, if f == Die then Died else Raised)
  }

  // ---------------------------------------------------------------- building

  function Remains(h: Home, id: Id, x: Env): Home
    requires id in h.apps
  {
    h.(apps := h.apps[id := App(h.apps[id].python && x.keepsPython, if x.keepsRecord then h.apps[id].record else None)])
  }

  /** The handler around the build: remove what there is of the app, then raise. */
  function CleanUp(h: Home, id: Id, x: Env, f: Fate): End {
    if f == Die then End(h, Died)
    else if id !in h.apps then End(h, Raised)
    else if x.fate(RemoveFailed) == Go then End(h.(apps := h.apps - {id}), Raised)
    else Stop(Remains(h, id, x), x.fate(RemoveFailed))
  }

  /** The live app is never rebuilt. */
  predicate LiveApp(h: Home, id: Id) {
    id in h.apps && h.current == Some(id)
  }

  function BuildApp(h: Home, id: Id, rec: Record, x: Env): End {
    if LiveApp(h, id) then End(h, Raised)
    else if id in h.apps && x.fate(RemoveOld) != Go then Stop(Remains(h, id, x), x.fate(RemoveOld))
    else Populate(h.(apps := h.apps - {id}), id, rec, x)
  }

  /** The venv is built in place and the record written last. */
  function Populate(h: Home, id: Id, rec: Record, x: Env): End {
    var bare := h.(apps := h.apps[id := App(true, None)]);
    if x.fate(Export) != Go then CleanUp(h, id, x, x.fate(Export))
    else if x.fate(BuildWheel) != Go then CleanUp(h, id, x, x.fate(BuildWheel))
    else if x.fate(CreateVenv) != Go then
      CleanUp(h.(apps := h.apps[id := App(x.keepsPython, None)]), id, x, x.fate(CreateVenv))
    else if x.fate(InstallWheel) != Go then CleanUp(bare, id, x, x.fate(InstallWheel))
    else if x.fate(WriteRecord) != Go then CleanUp(bare, id, x, x.fate(WriteRecord))
    else
      var full := h.(apps := h.apps[id := App(true, Some(rec))]);
      if x.fate(RemoveBuild) != Go then Stop(full, x.fate(RemoveBuild)) else End(full, Done)
  }

  // ---------------------------------------------------------------- switching

  /** Build the new link first, then swap.  A junction cannot be renamed over another, so on Windows
      the old link goes first and is put back if the rename fails. */
  function SwitchCurrent(h: Home, id: Id, x: Env): End {
    if h.staged.Some? && x.fate(RemoveStaged) != Go then Stop(h, x.fate(RemoveStaged))
    else if x.fate(MakeStaged) != Go then Stop(h.(staged := None), x.fate(MakeStaged))
    else
      var h1 := h.(staged := Some(id));
      if !x.windows then
        if x.fate(Swap) != Go then Stop(h1, x.fate(Swap)) else End(h1.(current := Some(id), staged := None), Done)
      else if h.current.Some? && x.fate(RemoveCurrent) != Go then Stop(h1, x.fate(RemoveCurrent))
      else if x.fate(Swap) == Go then End(h1.(current := Some(id), staged := None), Done)
      else if x.fate(Swap) == Die || h.current.None? then Stop(h1.(current := None), x.fate(Swap))
      else if x.fate(Relink) == Go then End(h1, Raised)
      else Stop(h1.(current := None), x.fate(Relink))
  }

  /** `was` is what `current` named when the run began. */
  function Activate(h: Home, id: Id, rec: Record, was: Option<Id>, x: Env): End {
    var records := was.Some? && was != Some(id);
    if records && x.fate(WritePrevious) != Go then Stop(h, x.fate(WritePrevious))
    else
      var s := SwitchCurrent(if records then h.(previous := was) else h, id, x);
      if s.how != Done then s
      else if x.fate(WriteInstalled) != Go then Stop(s.home, x.fate(WriteInstalled))
      else
        var h2 := s.home.(installed := Some(rec));
        if x.fate(WriteLauncher) != Go then Stop(h2, x.fate(WriteLauncher)) else End(h2.(launcher := true), Done)
  }

  // ---------------------------------------------------------------- installing

  /** Everything before activation. */
  function Prepare(h: Home, id: Id, rec: Record, x: Env): End {
    var reuse := Complete(h, id);
    if x.refused || (!reuse && LiveApp(h, id)) then End(h, Raised)
    else
      var b := if reuse then End(h, Done) else BuildApp(h, id, rec, x);
      if b.how != Done then b
      else if x.fate(Smoke) != Go then Stop(b.home, x.fate(Smoke))
      else if h.schema.Some? && x.fate(Backup) != Go then Stop(b.home, x.fate(Backup))
      else if x.fate(Migrate) != Go then
        Stop(if x.migrates then b.home.(schema := Some(x.migrated)) else b.home, x.fate(Migrate))
      else End(b.home.(schema := Some(x.migrated)), Done)
  }

  function SelfInstall(h: Home, id: Id, rec: Record, x: Env): End {
    var p := Prepare(h, id, rec, x);
    if p.how != Done then p else Activate(p.home, id, rec, h.current, x)
  }

  // ---------------------------------------------------------------- rolling back

  predicate IsAlnum(c: char) { '0' <= c <= '9' || 'A' <= c <= 'Z' || 'a' <= c <= 'z' }

  predicate IsHex(c: char) { '0' <= c <= '9' || 'a' <= c <= 'f' }

  /** `[0-9A-Za-z][0-9A-Za-z.+_]*` */
  predicate PlainVersion(s: string) {
    s != "" && IsAlnum(s[0]) && forall i :: 0 <= i < |s| ==> IsAlnum(s[i]) || s[i] == '.' || s[i] == '+' || s[i] == '_'
  }

  /** A plain version, a dash, ten hex digits. */
  predicate IsAppId(s: string) {
    |s| >= 11 && PlainVersion(s[..|s| - 11]) && s[|s| - 11] == '-' && forall i :: |s| - 10 <= i < |s| ==> IsHex(s[i])
  }

  /** `latest`: the newest migration each app ships. */
  function Rollback(h: Home, latest: Id -> int, x: Env): End {
    if h.previous.None? || !IsAppId(h.previous.value) || !Complete(h, h.previous.value) then End(h, Raised)
    else
      var id := h.previous.value;
      if h.schema.Some? && x.fate(Probe) != Go then Stop(h, x.fate(Probe))
      else if h.schema.Some? && h.schema.value > latest(id) then End(h, Raised)
      else if h.schema.Some? && x.fate(Backup) != Go then Stop(h, x.fate(Backup))
      else Activate(h, id, h.apps[id].record.value, h.current, x)
  }

  // ---------------------------------------------------------------- histories

  datatype Op = Installing(id: Id, rec: Record, x: Env) | RollingBack(x: Env)

  function Apply(h: Home, op: Op, latest: Id -> int): End {
    match op
    case Installing(id, rec, x) => SelfInstall(h, id, rec, x)
    case RollingBack(x) => Rollback(h, latest, x)
  }

  function History(h: Home, ops: seq<Op>, latest: Id -> int): Home
    decreases |ops|
  {
    if ops == [] then h else Apply(History(h, ops[..|ops| - 1], latest), ops[|ops| - 1], latest).home
  }
}

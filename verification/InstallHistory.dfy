/** What every history of installs and rollbacks keeps, with failure or death at any step. */
module InstallHistory {
  import opened Collections
  import opened Install

  /** `current` and `previous`, when set, name complete apps. */
  predicate Sound(h: Home) {
    && (h.current.Some? ==> Complete(h, h.current.value))
    && (h.previous.Some? ==> Complete(h, h.previous.value))
  }

  /** No complete app is removed or changed, and the directory `current` points at is still there. */
  ghost predicate Preserves(h: Home, h': Home) {
    && (forall id :: Complete(h, id) ==> id in h'.apps && h'.apps[id] == h.apps[id])
    && (h.current.Some? && h.current.value in h.apps ==> h.current.value in h'.apps)
  }

  predicate SameVisible(h: Home, h': Home) {
    h'.current == h.current && h'.previous == h.previous && h'.installed == h.installed && h'.launcher == h.launcher
  }

  /** Two sets of apps agree except perhaps about one. */
  ghost predicate SameElsewhere(a: map<Id, App>, b: map<Id, App>, id: Id) {
    forall k :: k != id ==> (k in a <==> k in b) && (k in a && k in b ==> a[k] == b[k])
  }

  // ---------------------------------------------------------------- building

  /** Building touches only the app being built, which is complete at the end exactly when the build
      got past writing its record. */
  lemma BuildTouchesItsApp(h: Home, id: Id, rec: Record, x: Env)
    requires !Complete(h, id)
    ensures var e := BuildApp(h, id, rec, x);
            && e.home == h.(apps := e.home.apps) && SameElsewhere(h.apps, e.home.apps, id)
            && (LiveApp(h, id) ==> e == End(h, Raised))
            && (e.how == Done ==> Complete(e.home, id) && e.home.apps[id].record == Some(rec))
            && (Complete(e.home, id) ==> e.how == Done || x.fate(RemoveBuild) != Go)
  {
    var e := BuildApp(h, id, rec, x);
    if !LiveApp(h, id) && !(id in h.apps && x.fate(RemoveOld) != Go) {
      PopulateTouches(h.(apps := h.apps - {id}), id, rec, x);
    }
  }

  lemma PopulateTouches(h: Home, id: Id, rec: Record, x: Env)
    requires id !in h.apps
    ensures var e := Populate(h, id, rec, x);
            && e.home == h.(apps := e.home.apps) && SameElsewhere(h.apps, e.home.apps, id)
            && (e.how == Done ==> Complete(e.home, id) && e.home.apps[id].record == Some(rec))
            && (Complete(e.home, id) ==> e.how == Done || x.fate(RemoveBuild) != Go)
  {
    CleanUpTouches(h, id, x, x.fate(Export));
    CleanUpTouches(h, id, x, x.fate(BuildWheel));
    CleanUpTouches(h.(apps := h.apps[id := App(x.keepsPython, None)]), id, x, x.fate(CreateVenv));
    CleanUpTouches(h.(apps := h.apps[id := App(true, None)]), id, x, x.fate(InstallWheel));
    CleanUpTouches(h.(apps := h.apps[id := App(true, None)]), id, x, x.fate(WriteRecord));
  }

  lemma CleanUpTouches(h: Home, id: Id, x: Env, f: Fate)
    requires !Complete(h, id)
    ensures var e := CleanUp(h, id, x, f);
            e.how != Done && e.home == h.(apps := e.home.apps) && SameElsewhere(h.apps, e.home.apps, id)
            && !Complete(e.home, id)
  {
  }

  /** Preparing an install changes apps, and the schema, but nothing visible. */
  lemma PrepareInvisible(h: Home, id: Id, rec: Record, x: Env)
    ensures var e := Prepare(h, id, rec, x);
            && SameVisible(h, e.home) && e.home.staged == h.staged && Preserves(h, e.home)
            && (e.how == Done ==> Complete(e.home, id) && e.home.schema == Some(x.migrated))
            && (e.how == Done ==> !x.refused && x.fate(Smoke) == Go && (h.schema.Some? ==> x.fate(Backup) == Go)
                                  && x.fate(Migrate) == Go)
  {
    if !Complete(h, id) {
      BuildTouchesItsApp(h, id, rec, x);
      var e := BuildApp(h, id, rec, x);
      OtherAppsStay(h, e.home, id);
    }
  }

  lemma OtherAppsStay(h: Home, h': Home, id: Id)
    requires !Complete(h, id) && SameElsewhere(h.apps, h'.apps, id) && (LiveApp(h, id) ==> h' == h)
    ensures Preserves(h, h')
  {
  }

  /** A failed install before activation changes nothing visible. */
  lemma FailedInstallInvisible(h: Home, id: Id, rec: Record, x: Env)
    requires Prepare(h, id, rec, x).how != Done
    ensures var e := SelfInstall(h, id, rec, x); e.how != Done && SameVisible(h, e.home)
  {
    PrepareInvisible(h, id, rec, x);
  }

  // ---------------------------------------------------------------- switching

  /** Outside Windows, `current` is the old or the new target whatever happens. */
  lemma SwitchOldOrNew(h: Home, id: Id, x: Env)
    requires !x.windows
    ensures var e := SwitchCurrent(h, id, x);
            && (e.how == Done ==> e.home == h.(current := Some(id), staged := None))
            && (e.how != Done ==> e.home == h.(staged := e.home.staged))
  {
  }

  /** On Windows it is the old or the new target too, except when the process dies between removing
      the old link and renaming the new one, or the old link cannot be put back. */
  lemma SwitchOnWindows(h: Home, id: Id, x: Env)
    requires x.windows
    ensures var e := SwitchCurrent(h, id, x);
            var removed := (h.staged.Some? ==> x.fate(RemoveStaged) == Go) && x.fate(MakeStaged) == Go
                           && x.fate(RemoveCurrent) == Go;
            && (e.how == Done ==> e.home == h.(current := Some(id), staged := None))
            && (h.current.Some? ==>
                  (e.home.current != h.current && e.home.current != Some(id)
                   <==> removed && x.fate(Swap) != Go && (x.fate(Swap) == Die || x.fate(Relink) != Go)))
            && (e.home.current == h.current || e.home.current == Some(id) || e.home.current == None)
  {
  }

  /** A link left staged by an earlier run never blocks the next switch. */
  lemma StagedNeverBlocks(h: Home, id: Id, x: Env, left: Option<Id>)
    requires x.fate(RemoveStaged) == Go
    ensures SwitchCurrent(h.(staged := left), id, x).how == SwitchCurrent(h, id, x).how
    ensures SwitchCurrent(h.(staged := left), id, x).home.current == SwitchCurrent(h, id, x).home.current
  {
  }

  // ---------------------------------------------------------------- activation

  /** Activation changes no app; it leaves `current` at the new app, the old one, or (on Windows) at
      nothing, and `previous` at what it was or at what `current` was. */
  lemma SwitchShape(h: Home, id: Id, x: Env)
    ensures var e := SwitchCurrent(h, id, x);
            && e.home == h.(current := e.home.current, staged := e.home.staged)
            && (e.home.current == Some(id) || e.home.current == h.current || e.home.current == None)
  {
  }

  lemma ActivateShape(h: Home, id: Id, rec: Record, x: Env)
    ensures var e := Activate(h, id, rec, h.current, x);
            && e.home.apps == h.apps && e.home.schema == h.schema
            && (e.home.current == Some(id) || e.home.current == h.current || e.home.current == None)
            && (e.home.previous == h.previous || (h.current.Some? && e.home.previous == h.current))
  {
    SwitchShape(h, id, x);
    SwitchShape(h.(previous := h.current), id, x);
  }

  lemma ActivateKeeps(h: Home, id: Id, rec: Record, x: Env)
    requires Complete(h, id)
    ensures var e := Activate(h, id, rec, h.current, x); Preserves(h, e.home) && (Sound(h) ==> Sound(e.home))
  {
    ActivateShape(h, id, rec, x);
  }

  lemma ActivateDone(h: Home, id: Id, rec: Record, x: Env)
    requires Activate(h, id, rec, h.current, x).how == Done
    ensures Activate(h, id, rec, h.current, x).home == h.(current := Some(id), staged := None,
                                                       previous := if h.current.Some? && h.current != Some(id)
                                                       then h.current else h.previous,
                                                       installed := Some(rec), launcher := true)
  {
  }

  /** An install that succeeds leaves `current` at a complete app, `previous` at the one before, the
      installed version and the launcher up to date, and the authority migrated after its backup. */
  lemma InstallDone(h: Home, id: Id, rec: Record, x: Env)
    requires SelfInstall(h, id, rec, x).how == Done
    ensures var h' := SelfInstall(h, id, rec, x).home;
            && h'.current == Some(id) && Complete(h', id) && h'.staged == None
            && h'.previous == (if h.current.Some? && h.current != Some(id) then h.current else h.previous)
            && h'.installed == Some(rec) && h'.launcher && h'.schema == Some(x.migrated)
            && (h.schema.Some? ==> x.fate(Backup) == Go) && x.fate(Smoke) == Go && !x.refused
  {
    PrepareInvisible(h, id, rec, x);
    ActivateDone(Prepare(h, id, rec, x).home, id, rec, x);
  }

  // ---------------------------------------------------------------- histories

  lemma InstallKeeps(h: Home, id: Id, rec: Record, x: Env)
    ensures var e := SelfInstall(h, id, rec, x); Preserves(h, e.home) && (Sound(h) ==> Sound(e.home))
  {
    PrepareInvisible(h, id, rec, x);
    var p := Prepare(h, id, rec, x);
    if p.how == Done {
      ActivateKeeps(p.home, id, rec, x);
    }
  }

  lemma ApplyKeeps(h: Home, op: Op, latest: Id -> int)
    ensures var h' := Apply(h, op, latest).home; Preserves(h, h') && (Sound(h) ==> Sound(h'))
  {
    match op
    case Installing(id, rec, x) => InstallKeeps(h, id, rec, x);
    case RollingBack(x) =>
      if h.previous.Some? && Complete(h, h.previous.value) {
        ActivateKeeps(h, h.previous.value, h.apps[h.previous.value].record.value, x);
      }
  }

  /** Over every history, with failure or death at any step: `current` and `previous` when set name
      complete apps, and no complete app is ever removed or changed. */
  lemma {:induction false} HistoryInvariant(h: Home, ops: seq<Op>, latest: Id -> int)
    requires Sound(h)
    ensures Sound(History(h, ops, latest))
    ensures forall id :: Complete(h, id)
                         ==> id in History(h, ops, latest).apps && History(h, ops, latest).apps[id] == h.apps[id]
    decreases |ops|
  {
    if ops != [] {
      HistoryInvariant(h, ops[..|ops| - 1], latest);
      ApplyKeeps(History(h, ops[..|ops| - 1], latest), ops[|ops| - 1], latest);
    }
  }

  /** From any home at all, sound or not, no step removes the directory `current` points at. */
  lemma LiveDirectoryStays(h: Home, ops: seq<Op>, op: Op, latest: Id -> int)
    ensures var before := History(h, ops, latest);
            before.current.Some? && before.current.value in before.apps ==>
              before.current.value in Apply(before, op, latest).home.apps
  {
    ApplyKeeps(History(h, ops, latest), op, latest);
  }

  /** When nothing fails, an install goes through exactly if no check refuses it and it does not have to
      rebuild the live app. */
  lemma InstallSucceeds(h: Home, id: Id, rec: Record, x: Env)
    requires AllGo(x)
    ensures SelfInstall(h, id, rec, x).how == Done <==>
            !x.refused && !(h.current == Some(id) && id in h.apps && !(h.apps[id].python && h.apps[id].record.Some?))
    ensures SelfInstall(h, id, rec, x).how != Done ==> SelfInstall(h, id, rec, x) == End(h, Raised)
  {
  }

  // ---------------------------------------------------------------- app ids

  predicate LetterOrDigit(c: char) { '0' <= c <= '9' || 'A' <= c <= 'Z' || 'a' <= c <= 'z' }

  /** Letters, digits, dots, pluses and underscores, the first one a letter or a digit. */
  predicate GoodVersion(v: string) {
    && v != "" && LetterOrDigit(v[0])
    && forall i :: 0 <= i < |v| ==> LetterOrDigit(v[i]) || v[i] == '.' || v[i] == '+' || v[i] == '_'
  }

  predicate HexTen(s: string) {
    |s| == 10 && forall i :: 0 <= i < 10 ==> '0' <= s[i] <= '9' || 'a' <= s[i] <= 'f'
  }

  ghost predicate NamesApp(id: string) {
    exists version: string, sha10: string :: GoodVersion(version) && HexTen(sha10) && id == version + "-" + sha10
  }

  /** An app id is a version, a dash and ten hex digits of the commit; rollback accepts it exactly when the
      version begins with a letter or a digit and holds only letters, digits, '.', '+' and '_'. */
  lemma AppIdAccepted(version: string, sha10: string)
    requires HexTen(sha10)
    ensures IsAppId(version + "-" + sha10) <==> GoodVersion(version)
  {
    var s := version + "-" + sha10;
    assert s[..|s| - 11] == version;
    assert forall i :: |s| - 10 <= i < |s| ==> s[i] == sha10[i - |version| - 1];
  }

  /** And it accepts nothing else. */
  lemma AppIdsAre(id: string)
    ensures IsAppId(id) <==> NamesApp(id)
  {
    if IsAppId(id) {
      var version, sha10 := id[..|id| - 11], id[|id| - 10..];
      assert id == version + "-" + sha10;
      assert GoodVersion(version) && HexTen(sha10);
    }
    if NamesApp(id) {
      var version: string, sha10: string :| GoodVersion(version) && HexTen(sha10) && id == version + "-" + sha10;
      AppIdAccepted(version, sha10);
    }
  }

  // ---------------------------------------------------------------- rollback

  /** No rollback, whatever fails in it, activates an app that is incomplete or whose newest
      migration is below the authority's schema. */
  lemma RollbackRespectsSchema(h: Home, latest: Id -> int, x: Env)
    ensures var e := Rollback(h, latest, x);
            e.home.current != h.current && e.home.current.Some? ==>
              && e.home.current == h.previous && Complete(h, e.home.current.value)
              && (h.schema.Some? ==> h.schema.value <= latest(e.home.current.value))
  {
  }

  /** The home can roll back and forth between its two apps. */
  ghost predicate Reversible(h: Home, latest: Id -> int) {
    && h.current.Some? && h.previous.Some? && Complete(h, h.current.value) && Complete(h, h.previous.value)
    && NamesApp(h.current.value) && NamesApp(h.previous.value)
    && (h.schema.Some? ==> h.schema.value <= latest(h.current.value) && h.schema.value <= latest(h.previous.value))
  }

  predicate AllGo(x: Env) {
    forall p: Phase :: x.fate(p) == Go
  }

  lemma RollbackOnce(h: Home, latest: Id -> int, x: Env)
    requires Reversible(h, latest) && AllGo(x)
    ensures Rollback(h, latest, x) == End(h.(current := h.previous, previous := h.current, staged := None,
                                          installed := h.apps[h.previous.value].record, launcher := true), Done)
  {
    AppIdsAre(h.previous.value);
  }

  /** When nothing fails, a rollback goes through exactly if `previous` names a complete app, by a version
      and a commit, that ships every migration the authority has; otherwise it changes nothing. */
  lemma RollbackSucceeds(h: Home, latest: Id -> int, x: Env)
    requires AllGo(x)
    ensures Rollback(h, latest, x).how == Done <==> CanRollBack(h, latest)
    ensures Rollback(h, latest, x).how != Done ==> Rollback(h, latest, x) == End(h, Raised)
  {
    if h.previous.Some? {
      AppIdsAre(h.previous.value);
    }
  }

  /** A rollback that goes through ends at the previous app, and names the one it left. */
  lemma RollbackGoesTo(h: Home, latest: Id -> int, x: Env)
    requires Rollback(h, latest, x).how == Done
    ensures var h' := Rollback(h, latest, x).home;
            && h'.current == h.previous && h'.installed == h.apps[h.previous.value].record
            && h'.previous == (if h.current.Some? && h.current != h.previous then h.current else h.previous)
  {
    ActivateDone(h, h.previous.value, h.apps[h.previous.value].record.value, x);
  }

  ghost predicate CanRollBack(h: Home, latest: Id -> int) {
    && h.previous.Some? && NamesApp(h.previous.value) && h.previous.value in h.apps
    && h.apps[h.previous.value].python && h.apps[h.previous.value].record.Some?
    && (h.schema.Some? ==> h.schema.value <= latest(h.previous.value))
  }

  /** Rolling back twice is the identity exactly when the home was settled: nothing staged, the
      launcher written, and installed-version naming the current app. */
  lemma RollbackInvolution(h: Home, latest: Id -> int, x: Env, y: Env)
    requires Reversible(h, latest) && AllGo(x) && AllGo(y)
    ensures var twice := Rollback(Rollback(h, latest, x).home, latest, y);
            && twice.how == Done && twice.home.current == h.current && twice.home.previous == h.previous
            && (twice.home == h <==> h.staged.None? && h.launcher && h.installed == h.apps[h.current.value].record)
  {
    RollbackOnce(h, latest, x);
    RollbackOnce(Rollback(h, latest, x).home, latest, y);
  }

  /** The switch stops before the new link is in place. */
  predicate SwitchStops(h: Home, x: Env) {
    || (h.staged.Some? && x.fate(RemoveStaged) != Go) || x.fate(MakeStaged) != Go || x.fate(Swap) != Go
    || (x.windows && x.fate(RemoveCurrent) != Go)
  }

  /** The rollback gets past its checks and its backup. */
  ghost predicate RollbackProceeds(h: Home, latest: Id -> int, x: Env) {
    && h.previous.Some? && NamesApp(h.previous.value) && Complete(h, h.previous.value)
    && (h.schema.Some? ==>
          x.fate(Probe) == Go && h.schema.value <= latest(h.previous.value) && x.fate(Backup) == Go)
  }

  /** The home names the app neither as current nor as previous. */
  predicate Lost(h: Home, id: Id) {
    h.current != Some(id) && h.previous != Some(id)
  }

  /** On every platform and from every home, a rollback loses the app it was going to exactly when it
      replaces another app and stops between recording `previous` and putting the new link in place. */
  lemma RollbackForgets(h: Home, latest: Id -> int, x: Env)
    ensures h.previous.Some? && Lost(Rollback(h, latest, x).home, h.previous.value) <==>
            && RollbackProceeds(h, latest, x) && h.current.Some? && h.current != h.previous
            && x.fate(WritePrevious) == Go && SwitchStops(h, x)
  {
    if h.previous.Some? {
      AppIdsAre(h.previous.value);
    }
  }

  function Rollbacks(h: Home, latest: Id -> int, xs: seq<Env>): Home
    decreases |xs|
  {
    if xs == [] then h else Rollback(Rollbacks(h, latest, xs[..|xs| - 1]), latest, xs[|xs| - 1]).home
  }

  /** An app that is lost stays lost over every sequence of rollbacks, whatever fails in them. */
  lemma {:induction false} ForgottenForGood(h: Home, id: Id, latest: Id -> int, xs: seq<Env>)
    requires Lost(h, id)
    ensures Lost(Rollbacks(h, latest, xs), id)
    decreases |xs|
  {
    if xs != [] {
      var before := Rollbacks(h, latest, xs[..|xs| - 1]);
      ForgottenForGood(h, id, latest, xs[..|xs| - 1]);
      if before.previous.Some? && Complete(before, before.previous.value) {
        ActivateShape(before, before.previous.value, before.apps[before.previous.value].record.value, xs[|xs| - 1]);
      }
    }
  }

  /** A VERSION with a dash in it installs, but can never be rolled back to. */
  lemma DashedVersionIsStuck(h: Home, version: string, sha10: string, k: nat, latest: Id -> int, x: Env)
    requires HexTen(sha10) && k < |version| && version[k] == '-'
    requires h.previous == Some(version + "-" + sha10)
    ensures Rollback(h, latest, x) == End(h, Raised)
  {
    AppIdAccepted(version, sha10);
  }

  /** Two installs get there: after one of a VERSION with a dash and one of any other app, every
      rollback is refused. */
  lemma DashedVersionGetsStuck(h: Home, version: string, sha10: string, k: nat, first: Record, x: Env, id: Id,
                               second: Record, y: Env, latest: Id -> int, z: Env)
    requires HexTen(sha10) && k < |version| && version[k] == '-'
    requires id != version + "-" + sha10
    requires var one := SelfInstall(h, version + "-" + sha10, first, x);
             one.how == Done && SelfInstall(one.home, id, second, y).how == Done
    ensures var one := SelfInstall(h, version + "-" + sha10, first, x).home;
            var two := SelfInstall(one, id, second, y).home;
            two.previous == Some(version + "-" + sha10) && Rollback(two, latest, z) == End(two, Raised)
  {
    var one := SelfInstall(h, version + "-" + sha10, first, x).home;
    InstallDone(h, version + "-" + sha10, first, x);
    InstallDone(one, id, second, y);
    DashedVersionIsStuck(SelfInstall(one, id, second, y).home, version, sha10, k, latest, z);
  }
}

/** The installed home as the installer works on it, step by step. */
module InstallHome {
  import opened Collections
  import opened Install
  import opened InstallHistory

  class HomeDirectory {
    var apps: map<Id, App>
    var current: Option<Id>
    var staged: Option<Id>
    var previous: Option<Id>
    var installed: Option<Record>
    var launcher: bool
    var schema: Option<int>

    function Value(): Home
      reads this
    {
      Home(apps, current, staged, previous, installed, launcher, schema)
    }

    /** Remove an app directory; a removal that stops leaves some of it. */
    method RemoveTree(id: Id, x: Env, phase: Phase) returns (how: How)
      requires id in apps
      modifies this`apps
      ensures how == (if x.fate(phase) == Go then Done else Stop(Value(), x.fate(phase)).how)
      ensures Value() == if how == Done then old(Value()).(apps := old(apps) - {id}) else Remains(old(Value()), id, x)
    {
      if x.fate(phase) == Go {
        apps := apps - {id};
        return Done;
      }
      apps := apps[id := App(apps[id].python && x.keepsPython, if x.keepsRecord then apps[id].record else None)];
      how := if x.fate(phase) == Die then Died else Raised;
    }

    /** The handler around the build. */
    method Abandon(id: Id, x: Env, fate: Fate) returns (how: How)
      requires fate != Go
      modifies this`apps
      ensures End(Value(), how) == CleanUp(old(Value()), id, x, fate)
    {
      if fate == Die {
        return Died;
      }
      if id in apps {
        how := RemoveTree(id, x, RemoveFailed);
        if how == Died {
          return;
        }
      }
      how := Raised;
    }

    method BuildApp(id: Id, rec: Record, x: Env) returns (how: How)
      modifies this`apps
      ensures End(Value(), how) == Install.BuildApp(old(Value()), id, rec, x)
    {
      if id in apps && current == Some(id) {
        return Raised;
      }
      if id in apps {
        how := RemoveTree(id, x, RemoveOld);
        if how != Done {
          return;
        }
      } else {
        assert apps - {id} == apps;
      }
      how := Populate(id, rec, x);
    }

    method Populate(id: Id, rec: Record, x: Env) returns (how: How)
      requires id !in apps
      modifies this`apps
      ensures End(Value(), how) == Install.Populate(old(Value()), id, rec, x)
    {
      if x.fate(Export) != Go {
        how := Abandon(id, x, x.fate(Export));
        return;
      }
      if x.fate(BuildWheel) != Go {
        how := Abandon(id, x, x.fate(BuildWheel));
        return;
      }
      if x.fate(CreateVenv) != Go {
        apps := apps[id := App(x.keepsPython, None)];
        how := Abandon(id, x, x.fate(CreateVenv));
        return;
      }
      apps := apps[id := App(true, None)];
      if x.fate(InstallWheel) != Go {
        how := Abandon(id, x, x.fate(InstallWheel));
        return;
      }
      if x.fate(WriteRecord) != Go {
        how := Abandon(id, x, x.fate(WriteRecord));
        return;
      }
      assert apps[id := App(true, Some(rec))] == old(apps)[id := App(true, Some(rec))];
      apps := apps[id := App(true, Some(rec))];
      how := if x.fate(RemoveBuild) == Go then Done else if x.fate(RemoveBuild) == Die then Died else Raised;
    }

    method SwitchCurrent(id: Id, x: Env) returns (how: How)
      modifies this`current, this`staged
      ensures End(Value(), how) == Install.SwitchCurrent(old(Value()), id, x)
    {
      if staged.Some? {
        if x.fate(RemoveStaged) != Go {
          return if x.fate(RemoveStaged) == Die then Died else Raised;
        }
        staged := None;
      }
      if x.fate(MakeStaged) != Go {
        return if x.fate(MakeStaged) == Die then Died else Raised;
      }
      staged := Some(id);
      var target := current;
      if x.windows && target.Some? {
        if x.fate(RemoveCurrent) != Go {
          return if x.fate(RemoveCurrent) == Die then Died else Raised;
        }
        current := None;
      }
      if x.fate(Swap) == Go {
        current, staged := staged, None;
        return Done;
      }
      if x.windows && target.Some? && x.fate(Swap) == Fail {
        if x.fate(Relink) != Go {
          return if x.fate(Relink) == Die then Died else Raised;
        }
        current := target;
      }
      how := if x.fate(Swap) == Die then Died else Raised;
    }

    method Activate(id: Id, rec: Record, was: Option<Id>, x: Env) returns (how: How)
      modifies this`current, this`staged, this`previous, this`installed, this`launcher
      ensures End(Value(), how) == Install.Activate(old(Value()), id, rec, was, x)
    {
      if was.Some? && was != Some(id) {
        if x.fate(WritePrevious) != Go {
          return if x.fate(WritePrevious) == Die then Died else Raised;
        }
        previous := was;
      }
      how := SwitchCurrent(id, x);
      if how != Done {
        return;
      }
      if x.fate(WriteInstalled) != Go {
        return if x.fate(WriteInstalled) == Die then Died else Raised;
      }
      installed := Some(rec);
      if x.fate(WriteLauncher) != Go {
        return if x.fate(WriteLauncher) == Die then Died else Raised;
      }
      launcher := true;
    }

    method Prepare(id: Id, rec: Record, x: Env) returns (how: How)
      modifies this`apps, this`schema
      ensures End(Value(), how) == Install.Prepare(old(Value()), id, rec, x)
    {
      var hadAuthority := schema.Some?;
      var reuse := id in apps && apps[id].python && apps[id].record.Some?;
      if x.refused || (!reuse && id in apps && current == Some(id)) {
        return Raised;
      }
      if !reuse {
        how := BuildApp(id, rec, x);
        if how != Done {
          return;
        }
      }
      if x.fate(Smoke) != Go {
        return if x.fate(Smoke) == Die then Died else Raised;
      }
      if hadAuthority && x.fate(Backup) != Go {
        return if x.fate(Backup) == Die then Died else Raised;
      }
      if x.fate(Migrate) != Go {
        if x.migrates {
          schema := Some(x.migrated);
        }
        return if x.fate(Migrate) == Die then Died else Raised;
      }
      schema := Some(x.migrated);
      how := Done;
    }

    /** Install an app.  Complete apps, and the directory `current` points at, survive whatever
        happens; and if it stops before activation nothing visible has changed. */
    method SelfInstall(id: Id, rec: Record, x: Env) returns (how: How)
      modifies this
      ensures End(Value(), how) == Install.SelfInstall(old(Value()), id, rec, x)
      ensures Preserves(old(Value()), Value()) && (Sound(old(Value())) ==> Sound(Value()))
      ensures Install.Prepare(old(Value()), id, rec, x).how != Done ==> SameVisible(old(Value()), Value())
    {
      ghost var h := Value();
      InstallKeeps(h, id, rec, x);
      if Install.Prepare(h, id, rec, x).how != Done {
        FailedInstallInvisible(h, id, rec, x);
      }
      PrepareInvisible(h, id, rec, x);
      var was := current;
      how := Prepare(id, rec, x);
      if how == Done {
        how := Activate(id, rec, was, x);
      }
    }

    method Rollback(latest: Id -> int, x: Env) returns (how: How)
      modifies this`current, this`staged, this`previous, this`installed, this`launcher
      ensures End(Value(), how) == Install.Rollback(old(Value()), latest, x)
      ensures Preserves(old(Value()), Value()) && (Sound(old(Value())) ==> Sound(Value()))
      ensures AllGo(x) ==> if CanRollBack(old(Value()), latest)
                then how == Done && current == old(previous) && installed == apps[old(previous).value].record
                     && previous == (if old(current).None? || old(current) == old(previous)
                                     then old(previous) else old(current))
                else how == Raised && Value() == old(Value())
    {
      ApplyKeeps(Value(), RollingBack(x), latest);
      if AllGo(x) {
        RollbackSucceeds(Value(), latest, x);
        if CanRollBack(Value(), latest) {
          RollbackGoesTo(Value(), latest, x);
        }
      }
      if previous.None? || !IsAppId(previous.value) || !(previous.value in apps) {
        return Raised;
      }
      var id := previous.value;
      var app := apps[id];
      if !app.python || app.record.None? {
        return Raised;
      }
      if schema.Some? {
        if x.fate(Probe) != Go {
          return if x.fate(Probe) == Die then Died else Raised;
        }
        if schema.value > latest(id) {
          return Raised;
        }
        if x.fate(Backup) != Go {
          return if x.fate(Backup) == Die then Died else Raised;
        }
      }
      how := Activate(id, app.record.value, current, x);
    }
  }
}

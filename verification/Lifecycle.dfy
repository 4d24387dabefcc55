/** Archiving a week and consolidating a year, run on their own: what they do in closed form, and
    that no crash point loses a byte. */
module Lifecycle {
  import opened Collections
  import opened Spool
  import opened Conservation
  import Calendar

  // ---------------------------------------------------------------- crash safety

  predicate IsLifecycle(a: Action) {
    a.Archive? || a.Consolidate? || a.LifecycleStop?
  }

  ghost predicate LifecycleOnly(run: seq<Action>) {
    forall i :: 0 <= i < |run| ==> IsLifecycle(run[i])
  }

  predicate ZipHolds(z: WeekZip, n: Name, file: File) {
    z.intact && n in z.entries && z.entries[n] == file
  }

  predicate YearHolds(y: YearZip, w: int, n: Name, file: File) {
    y.intact && w in y.weeks && ZipHolds(y.weeks[w], n, file)
  }

  /** The file, its bytes and its time, is in processed/, in a readable weekly zip, or in a readable
      weekly zip inside a readable yearly zip. */
  ghost predicate Held(s: State, n: Name, file: File) {
    || (n in s.dirs.processed && s.dirs.processed[n] == file)
    || (exists w :: w in s.archives.weekly && ZipHolds(s.archives.weekly[w], n, file))
    || (exists y, w :: y in s.archives.yearly && YearHolds(s.archives.yearly[y], w, n, file))
  }

  /** The runner's own view of processed/ is still right; nothing else writes there meanwhile. */
  ghost predicate Undisturbed(s: State) {
    match s.runner
    case Zipping(_, _, built) => SubMap(built, s.dirs.processed)
    case Published(_, _, built) => SubMap(built, s.dirs.processed)
    case Deleting(week, left) =>
      week in s.archives.weekly && forall n :: n in left && n in s.dirs.processed ==>
                                                 n in s.archives.weekly[week].entries
                                                 && s.archives.weekly[week].entries[n] == s.dirs.processed[n]
    case _ => true
  }

  lemma ArchiveHolds(s: State, m: ArchiveMove, n: Name, file: File)
    requires RunnerSafe(s) && Undisturbed(s) && Held(s, n, file)
             && (m.ArchiveBegin? || m.ArchiveAdd? || m.ArchivePublish?)
    ensures Undisturbed(StepArchive(s, m)) && Held(StepArchive(s, m), n, file)
  {
    var s' := StepArchive(s, m);
    if w :| w in s.archives.weekly && ZipHolds(s.archives.weekly[w], n, file) {
      assert w in s'.archives.weekly && ZipHolds(s'.archives.weekly[w], n, file);
    }
  }

  lemma DeleteHolds(s: State, d: Name, ok: bool, n: Name, file: File)
    requires RunnerSafe(s) && Undisturbed(s) && Held(s, n, file)
    ensures var s' := StepArchive(s, ArchiveDelete(d, ok)); Undisturbed(s') && Held(s', n, file)
  {
    var s' := StepArchive(s, ArchiveDelete(d, ok));
    if s' != s && n == d && n in s.dirs.processed && s.dirs.processed[n] == file {
      assert ZipHolds(s'.archives.weekly[s.runner.week], n, file);
    }
  }

  lemma VerifyHolds(s: State, readable: bool, unlinked: bool, n: Name, file: File)
    requires RunnerSafe(s) && Undisturbed(s) && Held(s, n, file)
    ensures var s' := StepArchive(s, ArchiveVerify(readable, unlinked)); Undisturbed(s') && Held(s', n, file)
  {
    var s' := StepArchive(s, ArchiveVerify(readable, unlinked));
    if s.runner.Published? {
      var week := s.runner.week;
      var zip := s.archives.weekly[week];
      if s'.runner.Deleting? {
        assert |s.runner.built| == |s.runner.built.Keys| && |zip.entries| == |zip.entries.Keys|;
        VerifiedIsComplete(zip.entries, s.runner.built);
      } else if w :| w in s.archives.weekly && ZipHolds(s.archives.weekly[w], n, file) {
        if w == week {
          assert s.runner.built[n] == file;
        } else {
          assert w in s'.archives.weekly && ZipHolds(s'.archives.weekly[w], n, file);
        }
      }
    }
  }

  lemma YearStepHolds(s: State, m: YearMove, n: Name, file: File)
    requires RunnerSafe(s) && Undisturbed(s) && Held(s, n, file)
    requires m.YearBegin? || m.YearAdd? || m.YearPublish? || m.YearDelete?
    ensures Undisturbed(StepYear(s, m)) && Held(StepYear(s, m), n, file)
  {
    var s' := StepYear(s, m);
    if s' != s {
      if w :| w in s.archives.weekly && ZipHolds(s.archives.weekly[w], n, file) {
        if m.YearDelete? && w == m.week {
          assert YearHolds(s'.archives.yearly[s.runner.year], w, n, file);
        } else {
          assert w in s'.archives.weekly && ZipHolds(s'.archives.weekly[w], n, file);
        }
      } else if y, w :| y in s.archives.yearly && YearHolds(s.archives.yearly[y], w, n, file) {
        assert y in s'.archives.yearly && YearHolds(s'.archives.yearly[y], w, n, file);
      }
    }
  }

  lemma YearVerifyHolds(s: State, readable: bool, unlinked: bool, n: Name, file: File)
    requires RunnerSafe(s) && Undisturbed(s) && Held(s, n, file)
    ensures var s' := StepYear(s, YearVerify(readable, unlinked)); Undisturbed(s') && Held(s', n, file)
  {
    var s' := StepYear(s, YearVerify(readable, unlinked));
    if s.runner.YearPublished? && s'.runner.Idle? {
      if y, w :| y in s.archives.yearly && YearHolds(s.archives.yearly[y], w, n, file) {
        if y == s.runner.year {
          assert w in s.archives.weekly && ZipHolds(s'.archives.weekly[w], n, file);
        } else {
          assert y in s'.archives.yearly && YearHolds(s'.archives.yearly[y], w, n, file);
        }
      }
    }
  }

  lemma YearlyHolds(s: State, m: YearMove, n: Name, file: File)
    requires RunnerSafe(s) && Undisturbed(s) && Held(s, n, file)
    ensures Undisturbed(StepYear(s, m)) && Held(StepYear(s, m), n, file)
  {
    if m.YearVerify? {
      YearVerifyHolds(s, m.readable, m.unlinked, n, file);
    } else {
      YearStepHolds(s, m, n, file);
    }
  }

  lemma WeeklyHolds(s: State, m: ArchiveMove, n: Name, file: File)
    requires RunnerSafe(s) && Undisturbed(s) && Held(s, n, file)
    ensures Undisturbed(StepArchive(s, m)) && Held(StepArchive(s, m), n, file)
  {
    if m.ArchiveVerify? {
      VerifyHolds(s, m.readable, m.unlinked, n, file);
    } else if m.ArchiveDelete? {
      DeleteHolds(s, m.name, m.ok, n, file);
    } else {
      ArchiveHolds(s, m, n, file);
    }
  }

  lemma LifecycleStepHolds(s: State, a: Action, n: Name, file: File)
    requires RunnerSafe(s) && Undisturbed(s) && Held(s, n, file) && IsLifecycle(a)
    ensures Undisturbed(Step(s, a)) && Held(Step(s, a), n, file)
  {
    match a
    case Archive(m) => WeeklyHolds(s, m, n, file);
    case Consolidate(m) => YearlyHolds(s, m, n, file);
    case LifecycleStop =>
  }

  /** At every point of any sequence of archiving and consolidating, interrupted or not, every file
      that was in processed/ or in an archive is still held, byte for byte. */
  lemma {:induction false} EveryCrashPointHolds(s: State, run: seq<Action>, n: Name, file: File)
    requires RunnerSafe(s) && Undisturbed(s) && Held(s, n, file) && LifecycleOnly(run)
    ensures RunnerSafe(Exec(s, run)) && Undisturbed(Exec(s, run)) && Held(Exec(s, run), n, file)
    decreases |run|
  {
    if run != [] {
      EveryCrashPointHolds(s, run[..|run| - 1], n, file);
      var s1 := Exec(s, run[..|run| - 1]);
      StepConserves(s1, run[|run| - 1]);
      LifecycleStepHolds(s1, run[|run| - 1], n, file);
    }
  }

  // ---------------------------------------------------------------- archiving a week

  /** The files of a week. */
  function Selected(processed: Dir, midnight: int -> int, monday: int): Dir {
    map n | n in processed && Calendar.InWeek(midnight, monday, processed[n].mtime) :: processed[n]
  }

  function Only<K, V>(m: map<K, V>, keys: seq<K>): map<K, V> {
    map k | k in keys && k in m :: m[k]
  }

  function Dropped<T(==)>(files: seq<T>, deletes: T -> bool): set<T> {
    set n | n in files && deletes(n)
  }

  function Adds(files: seq<Name>): seq<Action> {
    if files == [] then [] else Adds(files[..|files| - 1]) + [Archive(ArchiveAdd(files[|files| - 1]))]
  }

  function Deletes(files: seq<Name>, deletes: Name -> bool): seq<Action> {
    if files == [] then []
    else Deletes(files[..|files| - 1], deletes)
         + [Archive(ArchiveDelete(files[|files| - 1], deletes(files[|files| - 1])))]
  }

  lemma OnlyLast<K, V>(m: map<K, V>, keys: seq<K>, k: K)
    requires k in m
    ensures Only(m, keys + [k]) == Only(m, keys)[k := m[k]]
  {
  }

  lemma AddStep(s: State, week: int, all: set<Name>, built: Dir, n: Name)
    requires n in all && n in s.dirs.processed
    ensures Step(s.(runner := Zipping(week, all, built)), Archive(ArchiveAdd(n)))
         == s.(runner := Zipping(week, all, built[n := s.dirs.processed[n]]))
  {
  }

  lemma {:induction false} AddsBuild(s: State, week: int, all: set<Name>, files: seq<Name>)
    requires forall n :: n in files ==> n in all && n in s.dirs.processed
    ensures Exec(s.(runner := Zipping(week, all, map[])), Adds(files))
         == s.(runner := Zipping(week, all, Only(s.dirs.processed, files)))
    decreases |files|
  {
    if files != [] {
      var init, n := files[..|files| - 1], files[|files| - 1];
      AddsBuild(s, week, all, init);
      ExecNext(s.(runner := Zipping(week, all, map[])), Adds(init), Archive(ArchiveAdd(n)));
      AddStep(s, week, all, Only(s.dirs.processed, init), n);
      assert files == init + [n];
      OnlyLast(s.dirs.processed, init, n);
    } else {
      assert Only(s.dirs.processed, files) == map[];
    }
  }

  /** The runner deleting, with some files gone already. */
  function Dropping(s: State, gone: set<Name>, week: int, left: set<Name>): State {
    s.(dirs := s.dirs.(processed := s.dirs.processed - gone), runner := Deleting(week, left))
  }

  lemma DeleteStep(s: State, gone: set<Name>, week: int, left: set<Name>, n: Name, ok: bool)
    requires n in left
    ensures Step(Dropping(s, gone, week, left), Archive(ArchiveDelete(n, ok)))
         == Dropping(s, if ok then gone + {n} else gone, week, left - {n})
  {
    assert s.dirs.processed - gone - {n} == s.dirs.processed - (gone + {n});
  }

  lemma DroppedLast<T>(files: seq<T>, n: T, deletes: T -> bool)
    ensures Dropped(files + [n], deletes) == if deletes(n) then Dropped(files, deletes) + {n}
                                             else Dropped(files, deletes)
    ensures Names(files + [n]) == Names(files) + {n}
  {
  }

  lemma {:induction false} DeletesDrop(s: State, week: int, all: set<Name>, files: seq<Name>, deletes: Name -> bool)
    requires Distinct(files) && forall n :: n in files ==> n in all
    ensures Exec(Dropping(s, {}, week, all), Deletes(files, deletes))
         == Dropping(s, Dropped(files, deletes), week, all - Names(files))
    decreases |files|
  {
    if files != [] {
      var init, n := files[..|files| - 1], files[|files| - 1];
      DeletesDrop(s, week, all, init, deletes);
      ExecNext(Dropping(s, {}, week, all), Deletes(init, deletes), Archive(ArchiveDelete(n, deletes(n))));
      DeleteStep(s, Dropped(init, deletes), week, all - Names(init), n, deletes(n));
      assert files == init + [n];
      DroppedLast(init, n, deletes);
      assert all - Names(init) - {n} == all - Names(files);
    } else {
      assert all - Names(files) == all && Dropped(files, deletes) == {};
    }
  }

  /** What the environment does to one archiving run: whether the directory can be listed, the entry at
      which writing the zip fails, if any, the zip that ends up on disk for what was written to it,
      whether it can be opened, whether it can be removed again, which originals can be deleted. */
  datatype Storage = Storage(listable: bool, breaksAt: Option<nat>, zip: Dir -> WeekZip, opens: bool, unlinks: bool,
                             deletes: Name -> bool)

  ghost predicate Faithful(x: Storage) {
    forall m :: Plausible(x.zip(m).entries, x.zip(m).intact, m)
  }

  /** Nothing goes wrong. */
  ghost predicate Calm(x: Storage) {
    && x.listable && x.breaksAt.None? && x.opens && (forall n :: x.deletes(n))
    && forall m :: x.zip(m) == WeekZip(m, true)
  }

  /** Writing `count` entries fails half way. */
  predicate Breaks(at: Option<nat>, count: nat) { at.Some? && at.value < count }

  predicate Verified(zip: WeekZip, opens: bool, count: nat) {
    opens && zip.intact && |zip.entries| == count
  }

  /** A run that gets as far as publishing the zip. */
  function ArchiveRun(week: int, files: seq<Name>, zip: WeekZip, x: Storage): seq<Action> {
    [Archive(ArchiveBegin(week, Names(files)))] + Adds(files) + [Archive(ArchivePublish(zip))]
    + [Archive(ArchiveVerify(x.opens, x.unlinks))] + Deletes(files, x.deletes) + [LifecycleStop]
  }

  /** The spool after it. */
  function Archived(s: State, week: int, files: seq<Name>, zip: WeekZip, x: Storage): State {
    var kept := s.archives.(weekly := s.archives.weekly[week := zip]);
    if Verified(zip, x.opens, |files|) then
      s.(dirs := s.dirs.(processed := s.dirs.processed - Dropped(files, x.deletes)), archives := kept)
    else if x.unlinks then s
    else s.(archives := kept)
  }

  lemma {:induction false} DeletesIdle(s: State, files: seq<Name>, deletes: Name -> bool)
    requires s.runner == Idle
    ensures Exec(s, Deletes(files, deletes)) == s
    decreases |files|
  {
    if files != [] {
      DeletesIdle(s, files[..|files| - 1], deletes);
      ExecNext(s, Deletes(files[..|files| - 1], deletes),
               Archive(ArchiveDelete(files[|files| - 1], deletes(files[|files| - 1]))));
    }
  }

  /** Listing and writing the zip. */
  lemma ZipBuilt(s: State, week: int, files: seq<Name>)
    requires s.runner == Idle && week !in s.archives.weekly && files != []
    requires forall n :: n in files ==> n in s.dirs.processed
    ensures Exec(s, [Archive(ArchiveBegin(week, Names(files)))] + Adds(files))
         == s.(runner := Zipping(week, Names(files), Only(s.dirs.processed, files)))
  {
    ExecConcat(s, [Archive(ArchiveBegin(week, Names(files)))], Adds(files));
    BeginStep(s, week, files);
    AddsBuild(s, week, Names(files), files);
  }

  lemma BeginStep(s: State, week: int, files: seq<Name>)
    requires s.runner == Idle && week !in s.archives.weekly && files != []
    requires forall n :: n in files ==> n in s.dirs.processed
    ensures Exec(s, [Archive(ArchiveBegin(week, Names(files)))]) == s.(runner := Zipping(week, Names(files), map[]))
  {
    ExecOne(s, Archive(ArchiveBegin(week, Names(files))));
    assert files[0] in Names(files);
  }

  lemma PublishStep(s: State, week: int, files: seq<Name>, zip: WeekZip)
    requires forall n :: n in files ==> n in s.dirs.processed
    requires Plausible(zip.entries, zip.intact, Only(s.dirs.processed, files))
    ensures Step(s.(runner := Zipping(week, Names(files), Only(s.dirs.processed, files))), Archive(ArchivePublish(zip)))
         == s.(runner := Published(week, Names(files), Only(s.dirs.processed, files)),
            archives := s.archives.(weekly := s.archives.weekly[week := zip]))
  {
    assert Only(s.dirs.processed, files).Keys == Names(files);
  }

  /** The spool once the zip has been checked. */
  function Checked(s: State, week: int, files: seq<Name>, zip: WeekZip, x: Storage): State {
    var kept := s.(archives := s.archives.(weekly := s.archives.weekly[week := zip]));
    if Verified(zip, x.opens, |files|) then Dropping(kept, {}, week, Names(files))
    else (if x.unlinks then s else kept).(runner := Idle)
  }

  lemma VerifyStep(s: State, week: int, files: seq<Name>, zip: WeekZip, x: Storage)
    requires week !in s.archives.weekly && Distinct(files)
    ensures Step(s.(runner := Published(week, Names(files), Only(s.dirs.processed, files)),
                 archives := s.archives.(weekly := s.archives.weekly[week := zip])),
                 Archive(ArchiveVerify(x.opens, x.unlinks)))
         == Checked(s, week, files, zip, x)
  {
    DistinctCount(files);
    assert s.archives.weekly[week := zip] - {week} == s.archives.weekly;
    assert s.dirs.processed - {} == s.dirs.processed;
  }

  lemma DeletePart(s: State, week: int, files: seq<Name>, zip: WeekZip, x: Storage)
    requires s.runner == Idle && Distinct(files)
    ensures Step(Exec(Checked(s, week, files, zip, x), Deletes(files, x.deletes)), LifecycleStop)
         == Archived(s, week, files, zip, x)
  {
    if Verified(zip, x.opens, |files|) {
      DeletesDrop(s.(archives := s.archives.(weekly := s.archives.weekly[week := zip])), week, Names(files), files,
                  x.deletes);
    } else {
      DeletesIdle(Checked(s, week, files, zip, x), files, x.deletes);
    }
  }

  /** The archiving run, in closed form. */
  lemma ArchiveIsARun(s: State, week: int, files: seq<Name>, zip: WeekZip, x: Storage)
    requires s.runner == Idle && week !in s.archives.weekly && files != [] && Distinct(files)
    requires forall n :: n in files ==> n in s.dirs.processed
    requires Plausible(zip.entries, zip.intact, Only(s.dirs.processed, files))
    ensures Exec(s, ArchiveRun(week, files, zip, x)) == Archived(s, week, files, zip, x)
  {
    var a := [Archive(ArchiveBegin(week, Names(files)))] + Adds(files);
    var b := a + [Archive(ArchivePublish(zip))] + [Archive(ArchiveVerify(x.opens, x.unlinks))];
    ZipBuilt(s, week, files);
    ExecNext(s, a, Archive(ArchivePublish(zip)));
    PublishStep(s, week, files, zip);
    ExecNext(s, a + [Archive(ArchivePublish(zip))], Archive(ArchiveVerify(x.opens, x.unlinks)));
    VerifyStep(s, week, files, zip, x);
    ExecConcat(s, b, Deletes(files, x.deletes));
    ExecNext(s, b + Deletes(files, x.deletes), LifecycleStop);
    DeletePart(s, week, files, zip, x);
  }

  /** A run that dies, or gives up, while the zip is being written. */
  function AbortedRun(week: int, files: seq<Name>, k: nat): seq<Action>
    requires k <= |files|
  {
    [Archive(ArchiveBegin(week, Names(files)))] + Adds(files[..k]) + [LifecycleStop]
  }

  /** It leaves everything as it was. */
  lemma AbortedChangesNothing(s: State, week: int, files: seq<Name>, k: nat)
    requires s.runner == Idle && week !in s.archives.weekly && files != [] && k <= |files|
    requires forall n :: n in files ==> n in s.dirs.processed
    ensures Exec(s, AbortedRun(week, files, k)) == s
  {
    var a := [Archive(ArchiveBegin(week, Names(files)))];
    ExecNext(s, a + Adds(files[..k]), LifecycleStop);
    ExecConcat(s, a, Adds(files[..k]));
    BeginStep(s, week, files);
    AddsBuild(s, week, Names(files), files[..k]);
  }

  lemma {:induction false} AddsLifecycle(files: seq<Name>, deletes: Name -> bool)
    ensures LifecycleOnly(Adds(files)) && LifecycleOnly(Deletes(files, deletes))
  {
    if files != [] {
      AddsLifecycle(files[..|files| - 1], deletes);
    }
  }

  lemma RunsAreLifecycle(week: int, files: seq<Name>, k: nat, zip: WeekZip, x: Storage)
    requires k <= |files|
    ensures LifecycleOnly(ArchiveRun(week, files, zip, x)) && LifecycleOnly(AbortedRun(week, files, k))
  {
    AddsLifecycle(files, x.deletes);
    AddsLifecycle(files[..k], x.deletes);
  }

  // ---------------------------------------------------------------- consolidating a year

  /** The weekly zips of a year. */
  function ZipsOf(weekly: map<int, WeekZip>, year: int): map<int, WeekZip> {
    map m | m in weekly && Calendar.InYear(m, year) :: weekly[m]
  }

  datatype YearStorage = YearStorage(listable: bool, breaksAt: Option<nat>, zip: map<int, WeekZip> -> YearZip,
                                     opens: bool,
                                     unlinks: bool, deletes: int -> bool)

  ghost predicate FaithfulYear(x: YearStorage) {
    forall m :: Plausible(x.zip(m).weeks, x.zip(m).intact, m)
  }

  ghost predicate CalmYear(x: YearStorage) {
    && x.listable && x.breaksAt.None? && x.opens && (forall w :: x.deletes(w))
    && forall m :: x.zip(m) == YearZip(m, true)
  }

  /** Replacing weekly zips by a readable yearly zip that contains them holds every file. */
  lemma ConsolidationHolds(s: State, s': State, year: int, n: Name, file: File)
    requires s' == s.(archives := s'.archives) && year !in s.archives.yearly && Held(s, n, file)
    requires SubMap(s.archives.yearly, s'.archives.yearly)
    requires forall w :: w in s.archives.weekly ==>
                           || (w in s'.archives.weekly && s'.archives.weekly[w] == s.archives.weekly[w])
                           || (year in s'.archives.yearly && s'.archives.yearly[year].intact
                               && w in s'.archives.yearly[year].weeks
                               && s'.archives.yearly[year].weeks[w] == s.archives.weekly[w])
    ensures Held(s', n, file)
  {
    if w :| w in s.archives.weekly && ZipHolds(s.archives.weekly[w], n, file) {
      if !(w in s'.archives.weekly && s'.archives.weekly[w] == s.archives.weekly[w]) {
        assert YearHolds(s'.archives.yearly[year], w, n, file);
      } else {
        assert ZipHolds(s'.archives.weekly[w], n, file);
      }
    } else if y, w :| y in s.archives.yearly && YearHolds(s.archives.yearly[y], w, n, file) {
      assert YearHolds(s'.archives.yearly[y], w, n, file);
    }
  }
}

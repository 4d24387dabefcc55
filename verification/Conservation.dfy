/** No action of any process ever loses an event name. */
module Conservation {
  import opened Collections
  import opened Spool

  predicate InDirs(d: Dirs, n: Name) {
    n in d.inbox || n in d.processing || n in d.processed || n in d.failed
  }

  predicate InWeek(z: WeekZip, n: Name) {
    z.intact && n in z.entries
  }

  ghost predicate InWeekly(a: Archives, n: Name) {
    exists w :: w in a.weekly && InWeek(a.weekly[w], n)
  }

  predicate InNested(z: YearZip, w: int, n: Name) {
    z.intact && w in z.weeks && InWeek(z.weeks[w], n)
  }

  ghost predicate InYearly(a: Archives, n: Name) {
    exists y, w :: y in a.yearly && InNested(a.yearly[y], w, n)
  }

  /** The event is in one of the four directories, in a readable weekly zip, or in a readable
      weekly zip inside a readable yearly zip. */
  ghost predicate Present(s: State, n: Name) {
    InDirs(s.dirs, n) || InWeekly(s.archives, n) || InYearly(s.archives, n)
  }

  ghost predicate Keeps(s: State, s': State) {
    forall n :: Present(s, n) ==> Present(s', n)
  }

  /** What the lifecycle runner relies on: nobody else removes processed files or touches the
      archives, the zip on disk is the one it wrote, and it deletes only after verifying. */
  ghost predicate RunnerSafe(s: State) {
    match s.runner
    case Idle => true
    case Zipping(week, files, built) =>
      week !in s.archives.weekly && files <= s.dirs.processed.Keys && built.Keys <= files
    case Published(week, files, built) =>
      && week in s.archives.weekly && files <= s.dirs.processed.Keys && built.Keys == files
      && Plausible(s.archives.weekly[week].entries, s.archives.weekly[week].intact, built)
    case Deleting(week, left) =>
      week in s.archives.weekly && s.archives.weekly[week].intact && left <= s.archives.weekly[week].entries.Keys
    case YearZipping(year, zips, gathered) =>
      year !in s.archives.yearly && zips <= s.archives.weekly.Keys && gathered.Keys <= zips
      && SubMap(gathered, s.archives.weekly)
    case YearPublished(year, zips, gathered) =>
      && year in s.archives.yearly && gathered.Keys == zips && SubMap(gathered, s.archives.weekly)
      && Plausible(s.archives.yearly[year].weeks, s.archives.yearly[year].intact, gathered)
    case YearDeleting(year, weeksLeft) =>
      && year in s.archives.yearly && s.archives.yearly[year].intact
      && forall w :: w in weeksLeft && w in s.archives.weekly ==>
                       w in s.archives.yearly[year].weeks && s.archives.yearly[year].weeks[w] == s.archives.weekly[w]
  }

  /** A zip that passes its CRC pass and has as many entries as were written holds all of them. */
  lemma VerifiedIsComplete<K, V>(entries: map<K, V>, built: map<K, V>)
    requires SubMap(entries, built) && |entries| == |built|
    ensures entries == built
  {
    assert entries.Keys <= built.Keys;
    if k :| k in built && k !in entries {
      CardinalityOfSubset(entries.Keys, built.Keys - {k});
    }
  }

  // ---------------------------------------------------------------- one action

  /** An ingest step renames within the four directories, leaves the archives alone and never
      takes a name out of processed/. */
  lemma IngestStepShape(s: State, w: nat, m: IngestMove)
    requires w in s.workers
    ensures var s' := StepIngest(s, w, m);
            && s'.archives == s.archives && s'.runner == s.runner && s'.restores == s.restores && s'.reg == s.reg
            && s.dirs.processed.Keys <= s'.dirs.processed.Keys
            && forall n :: InDirs(s.dirs, n) ==> InDirs(s'.dirs, n)
  {
    match m
    case Claim(fault) =>
    case Read(fault) =>
    case WriteRaw(now, fault) =>
    case PutBack(ok) =>
    case WriteCanonical(now, fault) =>
    case Finish(fault) =>
    case FailMove(ok) =>
    case OuterMove(ok) =>
  }

  /** A change that keeps the archives and the runner, and takes nothing out of the directories
      (nor out of processed/), is harmless. */
  lemma Harmless(s: State, s': State)
    requires RunnerSafe(s) && s'.archives == s.archives && s'.runner == s.runner
    requires s.dirs.processed.Keys <= s'.dirs.processed.Keys
    requires forall n :: InDirs(s.dirs, n) ==> InDirs(s'.dirs, n)
    ensures RunnerSafe(s') && Keeps(s, s')
  {
  }

  lemma ArchiveKeeps(s: State, m: ArchiveMove)
    requires RunnerSafe(s)
    ensures RunnerSafe(StepArchive(s, m)) && Keeps(s, StepArchive(s, m))
  {
    var s' := StepArchive(s, m);
    match m
    case ArchiveBegin(week, files) =>
    case ArchiveAdd(n) =>
    case ArchivePublish(zip) =>
      if s != s' {
        assert forall w :: w in s.archives.weekly
                           ==> w in s'.archives.weekly && s'.archives.weekly[w] == s.archives.weekly[w];
      }
    case ArchiveVerify(readable, unlinked) => ArchiveVerifyKeeps(s, readable, unlinked);
    case ArchiveDelete(n, ok) =>
      if s != s' {
        assert InWeek(s'.archives.weekly[s.runner.week], n);
      }
  }

  lemma ArchiveVerifyKeeps(s: State, readable: bool, unlinked: bool)
    requires RunnerSafe(s)
    ensures var s' := StepArchive(s, ArchiveVerify(readable, unlinked)); RunnerSafe(s') && Keeps(s, s')
  {
    var s' := StepArchive(s, ArchiveVerify(readable, unlinked));
    if s.runner.Published? {
      var week := s.runner.week;
      var zip := s.archives.weekly[week];
      if s'.runner.Deleting? {
        assert |s.runner.built| == |s.runner.built.Keys| && |zip.entries| == |zip.entries.Keys|;
        VerifiedIsComplete(zip.entries, s.runner.built);
      } else {
        forall n | Present(s, n) ensures Present(s', n) {
          if InWeekly(s.archives, n) {
            var w :| w in s.archives.weekly && InWeek(s.archives.weekly[w], n);
            if w == week {
              assert n in s.runner.built;
              assert InDirs(s'.dirs, n);
            } else {
              assert w in s'.archives.weekly && InWeek(s'.archives.weekly[w], n);
            }
          }
        }
      }
    }
  }

  lemma YearKeeps(s: State, m: YearMove)
    requires RunnerSafe(s)
    ensures RunnerSafe(StepYear(s, m)) && Keeps(s, StepYear(s, m))
  {
    var s' := StepYear(s, m);
    match m
    case YearBegin(year, weeks) =>
    case YearAdd(week) =>
    case YearPublish(zip) =>
      if s != s' {
        assert forall y :: y in s.archives.yearly
                           ==> y in s'.archives.yearly && s'.archives.yearly[y] == s.archives.yearly[y];
      }
    case YearVerify(readable, unlinked) => YearVerifyKeeps(s, readable, unlinked);
    case YearDelete(week, ok) =>
      if s != s' {
        forall n | Present(s, n) ensures Present(s', n) {
          if InWeekly(s.archives, n) {
            var w :| w in s.archives.weekly && InWeek(s.archives.weekly[w], n);
            if w == week {
              assert InNested(s'.archives.yearly[s.runner.year], w, n);
            } else {
              assert w in s'.archives.weekly && InWeek(s'.archives.weekly[w], n);
            }
          }
        }
      }
  }

  lemma YearVerifyKeeps(s: State, readable: bool, unlinked: bool)
    requires RunnerSafe(s)
    ensures var s' := StepYear(s, YearVerify(readable, unlinked)); RunnerSafe(s') && Keeps(s, s')
  {
    var s' := StepYear(s, YearVerify(readable, unlinked));
    if s.runner.YearPublished? {
      var year := s.runner.year;
      var zip := s.archives.yearly[year];
      if s'.runner.YearDeleting? {
        assert |s.runner.gathered| == |s.runner.gathered.Keys| && |zip.weeks| == |zip.weeks.Keys|;
        VerifiedIsComplete(zip.weeks, s.runner.gathered);
      } else {
        forall n | Present(s, n) ensures Present(s', n) {
          if InYearly(s.archives, n) {
            var y, w :| y in s.archives.yearly && InNested(s.archives.yearly[y], w, n);
            if y == year {
              assert w in s.archives.weekly && InWeek(s.archives.weekly[w], n);
              assert InWeekly(s'.archives, n);
            } else {
              assert y in s'.archives.yearly && InNested(s'.archives.yearly[y], w, n);
            }
          }
        }
      }
    }
  }

  /** Every action keeps every event name somewhere. */
  lemma StepConserves(s: State, a: Action)
    requires RunnerSafe(s)
    ensures RunnerSafe(Step(s, a)) && Keeps(s, Step(s, a))
  {
    match a
    case Ingest(w, m) =>
      if w in s.workers {
        IngestStepShape(s, w, m);
        Harmless(s, StepIngest(s, w, m));
      }
    case Archive(m) => ArchiveKeeps(s, m);
    case Consolidate(m) => YearKeeps(s, m);
    case LifecycleStop =>
    case _ => Harmless(s, Step(s, a));
  }

  // ---------------------------------------------------------------- whole runs

  /** Conservation: whatever the directories, tables and archives hold when no lifecycle run is
      under way, every interleaving of writers, ingest runs, restores, one lifecycle runner,
      errors and deaths keeps every event name present. */
  lemma {:induction false} NothingLost(s: State, run: seq<Action>)
    requires RunnerSafe(s)
    ensures RunnerSafe(Exec(s, run)) && Keeps(s, Exec(s, run))
    decreases |run|
  {
    if run != [] {
      NothingLost(s, run[..|run| - 1]);
      StepConserves(Exec(s, run[..|run| - 1]), run[|run| - 1]);
    }
  }
}

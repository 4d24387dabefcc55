/** Consolidating a year, run on its own, in closed form: the weekly archiver's run one level up. */
module Consolidation {
  import opened Collections
  import opened Spool
  import opened Lifecycle

  function YearAdds(zips: seq<int>): seq<Action> {
    if zips == [] then [] else YearAdds(zips[..|zips| - 1]) + [Consolidate(YearAdd(zips[|zips| - 1]))]
  }

  function YearDeletes(zips: seq<int>, deletes: int -> bool): seq<Action> {
    if zips == [] then []
    else YearDeletes(zips[..|zips| - 1], deletes)
         + [Consolidate(YearDelete(zips[|zips| - 1], deletes(zips[|zips| - 1])))]
  }

  lemma YearAddStep(s: State, year: int, all: set<int>, built: map<int, WeekZip>, w: int)
    requires w in all && w in s.archives.weekly
    ensures Step(s.(runner := YearZipping(year, all, built)), Consolidate(YearAdd(w)))
         == s.(runner := YearZipping(year, all, built[w := s.archives.weekly[w]]))
  {
  }

  lemma {:induction false} YearAddsBuild(s: State, year: int, all: set<int>, zips: seq<int>)
    requires forall w :: w in zips ==> w in all && w in s.archives.weekly
    ensures Exec(s.(runner := YearZipping(year, all, map[])), YearAdds(zips))
         == s.(runner := YearZipping(year, all, Only(s.archives.weekly, zips)))
    decreases |zips|
  {
    if zips != [] {
      var init, w: int := zips[..|zips| - 1], zips[|zips| - 1];
      YearAddsBuild(s, year, all, init);
      ExecNext(s.(runner := YearZipping(year, all, map[])), YearAdds(init), Consolidate(YearAdd(w)));
      YearAddStep(s, year, all, Only(s.archives.weekly, init), w);
      assert zips == init + [w];
      OnlyLast(s.archives.weekly, init, w);
    } else {
      assert Only(s.archives.weekly, zips) == map[];
    }
  }

  /** The runner deleting, with some weekly zips gone already. */
  function YearDropping(s: State, gone: set<int>, year: int, left: set<int>): State {
    s.(archives := s.archives.(weekly := s.archives.weekly - gone), runner := YearDeleting(year, left))
  }

  lemma YearDeleteStep(s: State, gone: set<int>, year: int, left: set<int>, w: int, ok: bool)
    requires w in left
    ensures Step(YearDropping(s, gone, year, left), Consolidate(YearDelete(w, ok)))
         == YearDropping(s, if ok then gone + {w} else gone, year, left - {w})
  {
    assert s.archives.weekly - gone - {w} == s.archives.weekly - (gone + {w});
  }

  lemma {:induction false} YearDeletesDrop(s: State, year: int, all: set<int>, zips: seq<int>, deletes: int -> bool)
    requires Distinct(zips) && forall w :: w in zips ==> w in all
    ensures Exec(YearDropping(s, {}, year, all), YearDeletes(zips, deletes))
         == YearDropping(s, Dropped(zips, deletes), year, all - Names(zips))
    decreases |zips|
  {
    if zips != [] {
      var init, w: int := zips[..|zips| - 1], zips[|zips| - 1];
      YearDeletesDrop(s, year, all, init, deletes);
      ExecNext(YearDropping(s, {}, year, all), YearDeletes(init, deletes), Consolidate(YearDelete(w, deletes(w))));
      YearDeleteStep(s, Dropped(init, deletes), year, all - Names(init), w, deletes(w));
      assert zips == init + [w];
      DroppedLast(init, w, deletes);
      assert all - Names(init) - {w} == all - Names(zips);
    } else {
      assert all - Names(zips) == all && Dropped(zips, deletes) == {};
    }
  }

  predicate YearVerified(zip: YearZip, opens: bool, count: nat) {
    opens && zip.intact && |zip.weeks| == count
  }

  /** A run that gets as far as publishing the zip. */
  function ConsolidationRun(year: int, zips: seq<int>, zip: YearZip, x: YearStorage): seq<Action> {
    [Consolidate(YearBegin(year, Names(zips)))] + YearAdds(zips) + [Consolidate(YearPublish(zip))]
    + [Consolidate(YearVerify(x.opens, x.unlinks))] + YearDeletes(zips, x.deletes) + [LifecycleStop]
  }

  /** The spool after it. */
  function Consolidated(s: State, year: int, zips: seq<int>, zip: YearZip, x: YearStorage): State {
    var kept := s.archives.(yearly := s.archives.yearly[year := zip]);
    if YearVerified(zip, x.opens, |zips|) then
      s.(archives := kept.(weekly := s.archives.weekly - Dropped(zips, x.deletes)))
    else if x.unlinks then s
    else s.(archives := kept)
  }

  lemma {:induction false} YearDeletesIdle(s: State, zips: seq<int>, deletes: int -> bool)
    requires s.runner == Idle
    ensures Exec(s, YearDeletes(zips, deletes)) == s
    decreases |zips|
  {
    if zips != [] {
      YearDeletesIdle(s, zips[..|zips| - 1], deletes);
      ExecNext(s, YearDeletes(zips[..|zips| - 1], deletes),
               Consolidate(YearDelete(zips[|zips| - 1], deletes(zips[|zips| - 1]))));
    }
  }

  /** Listing and writing the zip. */
  lemma YearZipBuilt(s: State, year: int, zips: seq<int>)
    requires s.runner == Idle && year !in s.archives.yearly && zips != []
    requires forall w :: w in zips ==> w in s.archives.weekly
    ensures Exec(s, [Consolidate(YearBegin(year, Names(zips)))] + YearAdds(zips))
         == s.(runner := YearZipping(year, Names(zips), Only(s.archives.weekly, zips)))
  {
    ExecConcat(s, [Consolidate(YearBegin(year, Names(zips)))], YearAdds(zips));
    YearBeginStep(s, year, zips);
    YearAddsBuild(s, year, Names(zips), zips);
  }

  lemma YearBeginStep(s: State, year: int, zips: seq<int>)
    requires s.runner == Idle && year !in s.archives.yearly && zips != []
    requires forall w :: w in zips ==> w in s.archives.weekly
    ensures Exec(s, [Consolidate(YearBegin(year, Names(zips)))]) == s.(runner := YearZipping(year, Names(zips), map[]))
  {
    ExecOne(s, Consolidate(YearBegin(year, Names(zips))));
    var first: int := zips[0];
    assert first in Names(zips);
    forall w: int | w in Names(zips) ensures w in s.archives.weekly.Keys {
      assert w in zips;
    }
  }

  lemma YearPublishStep(s: State, year: int, zips: seq<int>, zip: YearZip)
    requires forall w :: w in zips ==> w in s.archives.weekly
    requires Plausible(zip.weeks, zip.intact, Only(s.archives.weekly, zips))
    ensures Step(s.(runner := YearZipping(year, Names(zips), Only(s.archives.weekly, zips))),
                 Consolidate(YearPublish(zip)))
         == s.(runner := YearPublished(year, Names(zips), Only(s.archives.weekly, zips)),
            archives := s.archives.(yearly := s.archives.yearly[year := zip]))
  {
    var gathered := Only(s.archives.weekly, zips);
    forall w: int ensures w in gathered.Keys <==> w in Names(zips) {
      assert w in zips ==> w in s.archives.weekly;
    }
    assert gathered.Keys == Names(zips);
  }

  /** The spool once the zip has been checked. */
  function YearChecked(s: State, year: int, zips: seq<int>, zip: YearZip, x: YearStorage): State {
    var kept := s.(archives := s.archives.(yearly := s.archives.yearly[year := zip]));
    if YearVerified(zip, x.opens, |zips|) then YearDropping(kept, {}, year, Names(zips))
    else (if x.unlinks then s else kept).(runner := Idle)
  }

  lemma YearVerifyStep(s: State, year: int, zips: seq<int>, zip: YearZip, x: YearStorage)
    requires year !in s.archives.yearly && Distinct(zips)
    ensures Step(s.(runner := YearPublished(year, Names(zips), Only(s.archives.weekly, zips)),
                 archives := s.archives.(yearly := s.archives.yearly[year := zip])),
                 Consolidate(YearVerify(x.opens, x.unlinks)))
         == YearChecked(s, year, zips, zip, x)
  {
    DistinctCount(zips);
    assert s.archives.yearly[year := zip] - {year} == s.archives.yearly;
    assert s.archives.weekly - {} == s.archives.weekly;
  }

  lemma YearDeletePart(s: State, year: int, zips: seq<int>, zip: YearZip, x: YearStorage)
    requires s.runner == Idle && Distinct(zips)
    ensures Step(Exec(YearChecked(s, year, zips, zip, x), YearDeletes(zips, x.deletes)), LifecycleStop)
         == Consolidated(s, year, zips, zip, x)
  {
    if YearVerified(zip, x.opens, |zips|) {
      YearDeletesDrop(s.(archives := s.archives.(yearly := s.archives.yearly[year := zip])), year, Names(zips), zips,
                      x.deletes);
    } else {
      YearDeletesIdle(YearChecked(s, year, zips, zip, x), zips, x.deletes);
    }
  }

  /** The consolidating run, in closed form. */
  lemma ConsolidationIsARun(s: State, year: int, zips: seq<int>, zip: YearZip, x: YearStorage)
    requires s.runner == Idle && year !in s.archives.yearly && zips != [] && Distinct(zips)
    requires forall w :: w in zips ==> w in s.archives.weekly
    requires Plausible(zip.weeks, zip.intact, Only(s.archives.weekly, zips))
    ensures Exec(s, ConsolidationRun(year, zips, zip, x)) == Consolidated(s, year, zips, zip, x)
  {
    var a := [Consolidate(YearBegin(year, Names(zips)))] + YearAdds(zips);
    var b := a + [Consolidate(YearPublish(zip))] + [Consolidate(YearVerify(x.opens, x.unlinks))];
    YearZipBuilt(s, year, zips);
    ExecNext(s, a, Consolidate(YearPublish(zip)));
    YearPublishStep(s, year, zips, zip);
    ExecNext(s, a + [Consolidate(YearPublish(zip))], Consolidate(YearVerify(x.opens, x.unlinks)));
    YearVerifyStep(s, year, zips, zip, x);
    ExecConcat(s, b, YearDeletes(zips, x.deletes));
    ExecNext(s, b + YearDeletes(zips, x.deletes), LifecycleStop);
    YearDeletePart(s, year, zips, zip, x);
  }

  /** A run that dies, or gives up, while the zip is being written. */
  function AbortedConsolidation(year: int, zips: seq<int>, k: nat): seq<Action>
    requires k <= |zips|
  {
    [Consolidate(YearBegin(year, Names(zips)))] + YearAdds(zips[..k]) + [LifecycleStop]
  }

  /** It leaves everything as it was. */
  lemma AbortedConsolidationChangesNothing(s: State, year: int, zips: seq<int>, k: nat)
    requires s.runner == Idle && year !in s.archives.yearly && zips != [] && k <= |zips|
    requires forall w :: w in zips ==> w in s.archives.weekly
    ensures Exec(s, AbortedConsolidation(year, zips, k)) == s
  {
    var a := [Consolidate(YearBegin(year, Names(zips)))];
    ExecNext(s, a + YearAdds(zips[..k]), LifecycleStop);
    ExecConcat(s, a, YearAdds(zips[..k]));
    YearBeginStep(s, year, zips);
    YearAddsBuild(s, year, Names(zips), zips[..k]);
  }

  lemma {:induction false} YearAddsLifecycle(zips: seq<int>, deletes: int -> bool)
    ensures LifecycleOnly(YearAdds(zips)) && LifecycleOnly(YearDeletes(zips, deletes))
  {
    if zips != [] {
      YearAddsLifecycle(zips[..|zips| - 1], deletes);
    }
  }

  lemma YearRunsAreLifecycle(year: int, zips: seq<int>, k: nat, zip: YearZip, x: YearStorage)
    requires k <= |zips|
    ensures LifecycleOnly(ConsolidationRun(year, zips, zip, x)) && LifecycleOnly(AbortedConsolidation(year, zips, k))
  {
    YearAddsLifecycle(zips, x.deletes);
    YearAddsLifecycle(zips[..k], x.deletes);
  }
}

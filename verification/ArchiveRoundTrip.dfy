/** Archive, then restore: the identity, through a weekly archive and through a yearly one. */
module ArchiveRoundTrip {
  import opened Collections
  import opened Conservation
  import opened Spool
  import opened Recovery
  import opened Lifecycle
  import opened Consolidation

  /** Archive a week and restore it into an empty inbox: the inbox holds exactly the archived files, by
      name and bytes. */
  lemma WeekRoundTrip(s: State, week: int, files: seq<Name>, zip: WeekZip, x: Storage, r: nat, members: seq<Name>,
                      now: int)
    requires s.runner == Idle && week !in s.archives.weekly && files != [] && Distinct(files)
    requires (forall n :: n in files ==> n in s.dirs.processed) && s.dirs.inbox == map[]
    requires Plausible(zip.entries, zip.intact, Only(s.dirs.processed, files)) && Verified(zip, x.opens, |files|)
    requires forall n :: n in members <==> n in files
    ensures var archived := Exec(s, ArchiveRun(week, files, zip, x));
            var restored := Exec(archived, [Restore(r, RestoreOpen(week))] + Copies(r, members, now));
            Contents(restored.dirs.inbox) == Contents(Only(s.dirs.processed, files))
  {
    ArchiveIsARun(s, week, files, zip, x);
    OnlyCount(s.dirs.processed, files);
    VerifiedIsComplete(zip.entries, Only(s.dirs.processed, files));
    var archived := Exec(s, ArchiveRun(week, files, zip, x));
    ExtractionIsARun(archived, r, week, members, now);
    ExtractInverts(zip.entries, now);
  }

  lemma OnlyCount(processed: Dir, files: seq<Name>)
    requires Distinct(files) && forall n :: n in files ==> n in processed
    ensures |Only(processed, files)| == |files|
  {
    var built := Only(processed, files);
    assert built.Keys == Names(files) && |built| == |built.Keys|;
    DistinctCount(files);
  }

  /** The weekly zips of a state, in the order given. */
  function Zips(weekly: map<int, WeekZip>, weeks: seq<int>): seq<Dir> {
    seq(|weeks|, i requires 0 <= i < |weeks| => if weeks[i] in weekly then weekly[weeks[i]].entries else map[])
  }

  /** No two zips disagree about the bytes of an event. */
  predicate Agreeing(zips: seq<Dir>, n: Name) {
    forall i, j :: 0 <= i < |zips| && 0 <= j < |zips| && n in zips[i] && n in zips[j]
                   ==> zips[i][n].content == zips[j][n].content
  }

  /** Consolidate a year of undamaged weekly zips and restore the yearly archive into an empty inbox: the
      inbox holds an event exactly if one of the weekly zips did, with the bytes it had there. */
  lemma YearRoundTrip(s: State, year: int, weeks: seq<int>, zip: YearZip, x: YearStorage, r: nat, now: int, n: Name)
    returns (run: seq<Action>)
    requires s.runner == Idle && year !in s.archives.yearly && weeks != [] && Distinct(weeks) && s.dirs.inbox == map[]
    requires forall w :: w in weeks ==> w in s.archives.weekly && s.archives.weekly[w].intact
    requires Plausible(zip.weeks, zip.intact, Only(s.archives.weekly, weeks)) && YearVerified(zip, x.opens, |weeks|)
    requires Agreeing(Zips(s.archives.weekly, weeks), n)
    ensures var inbox := Exec(Exec(s, ConsolidationRun(year, weeks, zip, x)), run).dirs.inbox;
            var zips := Zips(s.archives.weekly, weeks);
            && (n in inbox <==> exists i :: 0 <= i < |zips| && n in zips[i])
            && forall i :: 0 <= i < |zips| && n in zips[i] ==> n in inbox && inbox[n].content == zips[i][n].content
  {
    ConsolidationIsARun(s, year, weeks, zip, x);
    var gathered := Only(s.archives.weekly, weeks);
    OnlyWeeks(s.archives.weekly, weeks);
    VerifiedIsComplete(zip.weeks, gathered);
    var archived := Exec(s, ConsolidationRun(year, weeks, zip, x));
    forall i | 0 <= i < |weeks| ensures weeks[i] in zip.weeks && zip.weeks[weeks[i]] == s.archives.weekly[weeks[i]] {
      var w: int := weeks[i];
      assert w in weeks && w in gathered;
    }
    assert Nested(zip, weeks) == Zips(s.archives.weekly, weeks);
    run := YearExtractionIsARun(archived, r, year, weeks, now);
    YearExtractInverts(Zips(s.archives.weekly, weeks), now, n);
  }

  lemma OnlyWeeks(weekly: map<int, WeekZip>, weeks: seq<int>)
    requires Distinct(weeks) && forall w :: w in weeks ==> w in weekly
    ensures |Only(weekly, weeks)| == |weeks|
  {
    var gathered := Only(weekly, weeks);
    forall w: int ensures w in gathered.Keys <==> w in Names(weeks) {
      assert w in weeks ==> w in weekly;
    }
    assert gathered.Keys == Names(weeks);
    assert |gathered| == |gathered.Keys|;
    DistinctCount(weeks);
  }
}

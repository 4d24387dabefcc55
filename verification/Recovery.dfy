/** Disaster recovery: unzipping archives into the inbox and replaying them through one ingest run
    rebuilds the rows that were lost, and changes nothing on a healthy database. */
module Recovery {
  import opened Collections
  import opened Documents
  import opened Rows
  import opened Spool
  import opened Conservation
  import opened Recording
  import opened Outcomes
  import opened Turns

  // ---------------------------------------------------------------- extraction

  /** Copying one archive into the inbox: members already there are skipped. */
  function Extracted(inbox: Dir, entries: map<Name, File>, now: int): Dir {
    inbox + map n | n in entries && n !in inbox :: File(entries[n].content, now)
  }

  /** A yearly archive is its weekly zips, one after the other. */
  function ExtractedAll(inbox: Dir, zips: seq<map<Name, File>>, now: int): Dir
    decreases |zips|
  {
    if zips == [] then inbox else ExtractedAll(Extracted(inbox, zips[0], now), zips[1..], now)
  }

  ghost function Contents(m: map<Name, File>): map<Name, Content> {
    map n | n in m :: m[n].content
  }

  /** Extracting an archive into an empty inbox gives back exactly the archived names and bytes. */
  lemma ExtractInverts(entries: map<Name, File>, now: int)
    ensures Contents(Extracted(map[], entries, now)) == Contents(entries)
  {
  }

  lemma {:induction false} ExtractedAllAgrees(c: World, inbox: Dir, zips: seq<map<Name, File>>, now: int)
    requires AllAgree(c, inbox) && forall i :: 0 <= i < |zips| ==> AllAgree(c, zips[i])
    ensures AllAgree(c, ExtractedAll(inbox, zips, now))
    decreases |zips|
  {
    if zips != [] {
      var inbox' := Extracted(inbox, zips[0], now);
      assert AllAgree(c, inbox');
      ExtractedAllAgrees(c, inbox', zips[1..], now);
    }
  }

  /** Every member of every zip reaches the inbox. */
  lemma {:induction false} ExtractedAllHas(inbox: Dir, zips: seq<map<Name, File>>, now: int, n: Name)
    requires n in inbox || exists i :: 0 <= i < |zips| && n in zips[i]
    ensures n in ExtractedAll(inbox, zips, now)
    decreases |zips|
  {
    if zips != [] {
      var inbox' := Extracted(inbox, zips[0], now);
      if n !in inbox' {
        var i :| 0 <= i < |zips| && n in zips[i];
        assert zips[i] == zips[1..][i - 1];
      }
      ExtractedAllHas(inbox', zips[1..], now, n);
    }
  }

  /** And nothing else does. */
  lemma {:induction false} ExtractedAllOrigin(inbox: Dir, zips: seq<map<Name, File>>, now: int, n: Name)
    requires n in ExtractedAll(inbox, zips, now)
    ensures n in inbox || exists i :: 0 <= i < |zips| && n in zips[i]
    decreases |zips|
  {
    if zips != [] {
      var inbox' := Extracted(inbox, zips[0], now);
      ExtractedAllOrigin(inbox', zips[1..], now, n);
      if n !in inbox && n !in zips[0] {
        var i :| 0 <= i < |zips[1..]| && n in zips[1..][i];
        assert n in zips[i + 1];
      }
    }
  }

  lemma {:induction false} ExtractedAllContent(inbox: Dir, zips: seq<map<Name, File>>, now: int, n: Name,
                                               content: Content)
    requires n in inbox ==> inbox[n].content == content
    requires forall i :: 0 <= i < |zips| && n in zips[i] ==> zips[i][n].content == content
    ensures n in ExtractedAll(inbox, zips, now) ==> ExtractedAll(inbox, zips, now)[n].content == content
    decreases |zips|
  {
    if zips != [] {
      ExtractedAllContent(Extracted(inbox, zips[0], now), zips[1..], now, n, content);
    }
  }

  /** Extracting a year into an empty inbox gives back exactly the names in its weekly zips, each
      with its archived bytes, as long as no two zips disagree about them. */
  lemma YearExtractInverts(zips: seq<map<Name, File>>, now: int, n: Name)
    requires forall i, j :: 0 <= i < |zips| && 0 <= j < |zips| && n in zips[i] && n in zips[j]
                            ==> zips[i][n].content == zips[j][n].content
    ensures n in ExtractedAll(map[], zips, now) <==> exists i :: 0 <= i < |zips| && n in zips[i]
    ensures forall i :: 0 <= i < |zips| && n in zips[i] ==>
                          n in ExtractedAll(map[], zips, now)
                          && ExtractedAll(map[], zips, now)[n].content == zips[i][n].content
  {
    if i :| 0 <= i < |zips| && n in zips[i] {
      ExtractedAllHas(map[], zips, now, n);
      ExtractedAllContent(map[], zips, now, n, zips[i][n].content);
    } else if n in ExtractedAll(map[], zips, now) {
      ExtractedAllOrigin(map[], zips, now, n);
    }
  }

  lemma {:induction false} ExtractedAllNext(inbox: Dir, zips: seq<map<Name, File>>, z: map<Name, File>, now: int)
    ensures ExtractedAll(inbox, zips + [z], now) == Extracted(ExtractedAll(inbox, zips, now), z, now)
    decreases |zips|
  {
    if zips != [] {
      ExtractedAllNext(Extracted(inbox, zips[0], now), zips[1..], z, now);
      assert (zips + [z])[1..] == zips[1..] + [z];
    }
  }

  /** The members of an archive, as files written now. */
  function Copied(entries: map<Name, File>, names: seq<Name>, now: int): Dir {
    map n | n in names && n in entries :: File(entries[n].content, now)
  }

  function Copies(r: nat, members: seq<Name>, now: int): seq<Action> {
    if members == [] then []
    else
      var n := members[|members| - 1];
      Copies(r, members[..|members| - 1], now) + [Restore(r, RestoreCopy(n, now, Whole))]
  }

  lemma CopiedLast(inbox: Dir, entries: map<Name, File>, members: seq<Name>, now: int)
    requires members != [] && members[|members| - 1] in entries
    ensures var init, last := members[..|members| - 1], members[|members| - 1];
            inbox + Copied(entries, members, now)
            == (inbox + Copied(entries, init, now))[last := File(entries[last].content, now)]
  {
    assert members == members[..|members| - 1] + [members[|members| - 1]];
  }

  lemma CopiedIsExtracted(inbox: Dir, entries: map<Name, File>, members: seq<Name>, now: int)
    requires forall n :: n in members <==> n in entries && n !in inbox
    ensures inbox + Copied(entries, members, now) == Extracted(inbox, entries, now)
  {
  }

  lemma CopyStep(s: State, inbox: Dir, r: nat, n: Name, now: int)
    requires r in s.restores && n in s.restores[r]
    ensures Step(s.(dirs := s.dirs.(inbox := inbox)), Restore(r, RestoreCopy(n, now, Whole)))
         == s.(dirs := s.dirs.(inbox := inbox[n := File(s.restores[r][n].content, now)]))
  {
  }

  lemma {:induction false} CopiesExtract(s: State, r: nat, members: seq<Name>, now: int)
    requires r in s.restores && forall n :: n in members ==> n in s.restores[r]
    ensures Exec(s, Copies(r, members, now)) ==
            s.(dirs := s.dirs.(inbox := s.dirs.inbox + Copied(s.restores[r], members, now)))
    decreases |members|
  {
    if members == [] {
      assert s.dirs.inbox + Copied(s.restores[r], members, now) == s.dirs.inbox;
    } else {
      var init, last := members[..|members| - 1], members[|members| - 1];
      CopiesExtract(s, r, init, now);
      ExecNext(s, Copies(r, init, now), Restore(r, RestoreCopy(last, now, Whole)));
      CopyStep(s, s.dirs.inbox + Copied(s.restores[r], init, now), r, last, now);
      CopiedLast(s.dirs.inbox, s.restores[r], members, now);
    }
  }

  /** Extracting is what the restore actions do: open the archive, then copy what is missing. */
  lemma ExtractionIsARun(s: State, r: nat, week: int, members: seq<Name>, now: int)
    requires week in s.archives.weekly && s.archives.weekly[week].intact
    requires forall n :: n in members <==> n in s.archives.weekly[week].entries && n !in s.dirs.inbox
    ensures var s' := Exec(s, [Restore(r, RestoreOpen(week))] + Copies(r, members, now));
            s'.dirs == s.dirs.(inbox := Extracted(s.dirs.inbox, s.archives.weekly[week].entries, now))
            && s'.archives == s.archives
  {
    OpenThenCopy(s, r, RestoreOpen(week), s.archives.weekly[week].entries, members, now);
  }

  lemma OpenThenCopy(s: State, r: nat, open: RestoreMove, entries: map<Name, File>, members: seq<Name>, now: int)
    requires Step(s, Restore(r, open)) == s.(restores := s.restores[r := entries])
    requires forall n :: n in members <==> n in entries && n !in s.dirs.inbox
    ensures var s' := Exec(s, [Restore(r, open)] + Copies(r, members, now));
            s'.dirs == s.dirs.(inbox := Extracted(s.dirs.inbox, entries, now)) && s'.archives == s.archives
  {
    ExecConcat(s, [Restore(r, open)], Copies(r, members, now));
    ExecOne(s, Restore(r, open));
    CopiesExtract(Step(s, Restore(r, open)), r, members, now);
    CopiedIsExtracted(s.dirs.inbox, entries, members, now);
  }

  lemma {:induction false} SomeListing(names: set<Name>) returns (q: seq<Name>)
    ensures forall n :: n in q <==> n in names
    decreases names
  {
    if names == {} {
      q := [];
    } else {
      var n :| n in names;
      var rest := SomeListing(names - {n});
      q := rest + [n];
    }
  }

  /** The entries of weekly zips inside a yearly one. */
  function Nested(zip: YearZip, weeks: seq<int>): seq<map<Name, File>> {
    seq(|weeks|, i requires 0 <= i < |weeks| => if weeks[i] in zip.weeks then zip.weeks[weeks[i]].entries else map[])
  }

  /** So is extracting the weekly zips of a yearly archive one after the other. */
  lemma {:induction false} YearExtractionIsARun(s: State, r: nat, year: int, weeks: seq<int>, now: int)
    returns (run: seq<Action>)
    requires year in s.archives.yearly && s.archives.yearly[year].intact
    requires forall i :: 0 <= i < |weeks| ==>
                           weeks[i] in s.archives.yearly[year].weeks && s.archives.yearly[year].weeks[weeks[i]].intact
    ensures Exec(s, run).dirs
         == s.dirs.(inbox := ExtractedAll(s.dirs.inbox, Nested(s.archives.yearly[year], weeks), now))
    ensures Exec(s, run).archives == s.archives
    decreases |weeks|
  {
    var zip := s.archives.yearly[year];
    if weeks == [] {
      run := [];
    } else {
      var init, w: int := weeks[..|weeks| - 1], weeks[|weeks| - 1];
      var first := YearExtractionIsARun(s, r, year, init, now);
      var s1 := Exec(s, first);
      var members := SomeListing(zip.weeks[w].entries.Keys - s1.dirs.inbox.Keys);
      var more := [Restore(r, RestoreOpenNested(year, w))] + Copies(r, members, now);
      OpenThenCopy(s1, r, RestoreOpenNested(year, w), zip.weeks[w].entries, members, now);
      ExecConcat(s, first, more);
      ExtractedAllNext(s.dirs.inbox, Nested(zip, init), zip.weeks[w].entries, now);
      assert Nested(zip, weeks) == Nested(zip, init) + [zip.weeks[w].entries];
      run := first + more;
    }
  }

  // ---------------------------------------------------------------- an error-free ingest run

  function CalmAt(now: int): Trouble { CALM.(now := now) }

  /** k turns without any fault. */
  function CalmRounds(w: nat, k: nat, now: int): seq<Action> {
    if k == 0 then [] else Round(w, CalmAt(now)) + CalmRounds(w, k - 1, now)
  }

  function CalmAlways(now: int): Name -> Trouble { (_: Name) => CalmAt(now) }

  lemma {:induction false} CalmRoundsEnd(w: nat, k: nat, now: int)
    ensures CalmRounds(w, k + 1, now) == CalmRounds(w, k, now) + Round(w, CalmAt(now))
  {
    if k > 0 {
      CalmRoundsEnd(w, k - 1, now);
    }
  }

  lemma {:induction false} CalmRoundsAre(w: nat, listing: seq<Name>, now: int)
    ensures Rounds(w, listing, CalmAlways(now)) == CalmRounds(w, |listing|, now)
  {
    if listing != [] {
      CalmRoundsAre(w, listing[..|listing| - 1], now);
      CalmRoundsEnd(w, |listing| - 1, now);
    }
  }

  /** Replaying an event that is already fully recorded changes no row. */
  lemma ReplayIsNoOp(c: World, t: Tables, n: Name, now: int)
    requires Sound(c) && TablesOk(c, t) && Done(c, t, n)
    ensures Tabled(t, c.verdict(n), c.reg, CalmAt(now)) == t
  {
    var f := c.verdict(n).fields;
    assert Get(f, EventId) == Str(n);
  }

  /** One calm turn on a file that agrees with the log. */
  lemma CalmTurn(c: World, t: Tables, n: Name, content: Content, now: int)
    requires Sound(c) && TablesOk(c, t) && Agrees(c, n, content)
    ensures var t' := Tabled(t, Classify(content), c.reg, CalmAt(now));
            && TablesOk(c, t') && Extends(t, t')
            && (Classify(content).Accepted? ==> Done(c, t', n))
            && (Done(c, t, n) ==> t' == t)
  {
    if Classify(content).Accepted? {
      AcceptedIsLogged(c, n, content);
      AcceptedTurn(c, t, n, c.verdict(n).fields, now);
      if Done(c, t, n) {
        ReplayIsNoOp(c, t, n, now);
      }
    }
  }

  lemma AcceptedTurn(c: World, t: Tables, n: Name, f: Fields, now: int)
    requires Sound(c) && TablesOk(c, t) && c.verdict(n) == Accepted(f)
    ensures var t' := Tabled(t, Accepted(f), c.reg, CalmAt(now)); TablesOk(c, t') && Extends(t, t') && Done(c, t', n)
  {
    RawInsertOk(c, t, n, f, now);
    InsertsExtend(t, c.reg, f, now);
    CanonicalInsertOk(c, InsertRaw(t, f, now), n, f, now);
  }

  ghost predicate Listed(c: World, s: State, w: nat) {
    && w in s.workers && s.workers[w].pc.Next? && Distinct(s.workers[w].todo)
    && forall n :: n in s.workers[w].todo ==> n in s.dirs.inbox && Agrees(c, n, s.dirs.inbox[n].content)
  }

  /** What processing the listed files brings about: rows stay sound and only grow, every listed
      event whose file decodes is recorded and in processed/, and nothing changes if all of them
      were recorded already. */
  ghost predicate Replayed(c: World, s: State, todo: seq<Name>, s': State)
    requires forall n :: n in todo ==> n in s.dirs.inbox
  {
    && TablesOk(c, s'.tables) && Extends(s.tables, s'.tables)
    && s.dirs.processed.Keys <= s'.dirs.processed.Keys
    && (forall n :: n in todo && Classify(s.dirs.inbox[n].content).Accepted? ==>
                      n in s'.dirs.processed && Done(c, s'.tables, n))
    && ((forall n :: n in todo ==> Done(c, s.tables, n)) ==> s'.tables == s.tables)
  }

  lemma ReplayedThen(c: World, s: State, s1: State, s': State, todo: seq<Name>)
    requires todo != [] && forall n :: n in todo ==> n in s.dirs.inbox
    requires forall n :: n in todo[1..] ==> n in s1.dirs.inbox && s1.dirs.inbox[n] == s.dirs.inbox[n]
    requires Replayed(c, s, todo[..1], s1) && Replayed(c, s1, todo[1..], s')
    ensures Replayed(c, s, todo, s')
  {
    DoneGrows(c, s.tables, s1.tables);
    DoneGrows(c, s1.tables, s'.tables);
    assert forall n :: n in todo <==> n in todo[..1] || n in todo[1..];
  }

  /** The first turn of such a run. */
  lemma CalmStep(c: World, s: State, w: nat, now: int)
    requires Sound(c) && s.reg == c.reg && TablesOk(c, s.tables) && Listed(c, s, w) && s.workers[w].todo != []
    ensures var s1, todo := Exec(s, Round(w, CalmAt(now))), s.workers[w].todo;
            && s1.reg == c.reg && Listed(c, s1, w) && s1.workers[w].todo == todo[1..]
            && (forall n :: n in todo[1..] ==> s1.dirs.inbox[n] == s.dirs.inbox[n])
            && todo[0] in s.dirs.inbox && Replayed(c, s, todo[..1], s1)
  {
    var todo := s.workers[w].todo;
    var n, x := todo[0], CalmAt(now);
    var content := s.dirs.inbox[n].content;
    ExactOutcome(s, w, x, n);
    CalmTurn(c, s.tables, n, content, now);
    CalmPlace(s.dirs, n, Classify(content), s.reg, now);
    assert forall m :: m in todo[1..] ==> m in todo && m != n;
    assert todo[..1] == [n];
  }

  lemma CalmPlace(d: Dirs, n: Name, v: Verdict, reg: Registry, now: int)
    requires n in d.inbox
    ensures var d' := Placed(d, n, Destination(v, reg, CalmAt(now)));
            && d.processed.Keys <= d'.processed.Keys && (v.Accepted? ==> n in d'.processed)
            && forall m :: m in d.inbox && m != n ==> m in d'.inbox && d'.inbox[m] == d.inbox[m]
  {
  }

  /** An error-free ingest run over its whole listing. */
  lemma {:induction false} CalmIngest(c: World, s: State, w: nat, now: int)
    requires Sound(c) && s.reg == c.reg && TablesOk(c, s.tables) && Listed(c, s, w)
    ensures Replayed(c, s, s.workers[w].todo, Exec(s, CalmRounds(w, |s.workers[w].todo|, now)))
    decreases |s.workers[w].todo|
  {
    var todo := s.workers[w].todo;
    if todo != [] {
      var s1 := Exec(s, Round(w, CalmAt(now)));
      CalmStep(c, s, w, now);
      CalmIngest(c, s1, w, now);
      ReplayedThen(c, s, s1, Exec(s1, CalmRounds(w, |todo| - 1, now)), todo);
      ExecConcat(s, Round(w, CalmAt(now)), CalmRounds(w, |todo| - 1, now));
    }
  }

  /** Where new rows come from and where broken files go: every new raw row is a listed event whose
      file decodes, and every listed file that does not parse is in failed/. */
  ghost predicate Traced(s: State, todo: seq<Name>, s': State)
    requires forall n :: n in todo ==> n in s.dirs.inbox
  {
    && s.dirs.failed.Keys <= s'.dirs.failed.Keys
    && (forall n :: n in s'.tables.raw ==>
                      n in s.tables.raw || (n in todo && Classify(s.dirs.inbox[n].content).Accepted?))
    && (forall n :: n in todo && Classify(s.dirs.inbox[n].content).Unparsed? ==> n in s'.dirs.failed)
  }

  /** The first turn of such a run. */
  lemma CalmTrace(c: World, s: State, w: nat, now: int)
    requires Sound(c) && s.reg == c.reg && TablesOk(c, s.tables) && Listed(c, s, w) && s.workers[w].todo != []
    ensures var s1, todo := Exec(s, Round(w, CalmAt(now))), s.workers[w].todo;
            todo[0] in s.dirs.inbox && Traced(s, todo[..1], s1)
  {
    var n := s.workers[w].todo[0];
    var v := Classify(s.dirs.inbox[n].content);
    ExactOutcome(s, w, CalmAt(now), n);
    if v.Accepted? {
      AcceptedIsLogged(c, n, s.dirs.inbox[n].content);
    }
    RawFrom(s.tables, v, s.reg, CalmAt(now), n);
    assert s.workers[w].todo[..1] == [n];
  }

  /** One turn adds at most the raw row of its own event. */
  lemma RawFrom(t: Tables, v: Verdict, reg: Registry, x: Trouble, n: Name)
    requires v.Accepted? ==> Get(v.fields, EventId) == Str(n)
    ensures forall m :: m in Tabled(t, v, reg, x).raw ==> m in t.raw || (m == n && v.Accepted?)
  {
  }

  lemma {:induction false} CalmTraces(c: World, s: State, w: nat, now: int)
    requires Sound(c) && s.reg == c.reg && TablesOk(c, s.tables) && Listed(c, s, w)
    ensures Traced(s, s.workers[w].todo, Exec(s, CalmRounds(w, |s.workers[w].todo|, now)))
    decreases |s.workers[w].todo|
  {
    var todo := s.workers[w].todo;
    if todo != [] {
      var s1 := Exec(s, Round(w, CalmAt(now)));
      CalmStep(c, s, w, now);
      CalmTrace(c, s, w, now);
      CalmTraces(c, s1, w, now);
      TracedThen(s, s1, Exec(s1, CalmRounds(w, |todo| - 1, now)), todo);
      ExecConcat(s, Round(w, CalmAt(now)), CalmRounds(w, |todo| - 1, now));
    }
  }

  lemma TracedThen(s: State, s1: State, s': State, todo: seq<Name>)
    requires todo != [] && forall n :: n in todo ==> n in s.dirs.inbox
    requires forall n :: n in todo[1..] ==> n in s1.dirs.inbox && s1.dirs.inbox[n] == s.dirs.inbox[n]
    requires Traced(s, todo[..1], s1) && Traced(s1, todo[1..], s')
    ensures Traced(s, todo, s')
  {
    assert forall n :: n in todo <==> n in todo[..1] || n in todo[1..];
  }

  // ---------------------------------------------------------------- recovery

  /** The row an event has in one table and in another agree, up to the time of receipt. */
  predicate SameRow(a: Table, b: Table, n: Name) {
    (n in a <==> n in b) && (n in a && n in b ==> a[n].fields == b[n].fields)
  }

  predicate SameRows(a: Tables, b: Tables, n: Name) {
    SameRow(a.raw, b.raw, n) && SameRow(a.business, b.business, n) && SameRow(a.ai, b.ai, n)
  }

  /** What is recorded about an event is determined by the event. */
  lemma RecordedAlike(c: World, a: Tables, b: Tables, n: Name)
    requires TablesOk(c, a) && TablesOk(c, b) && Done(c, a, n) && Done(c, b, n)
    ensures SameRows(a, b, n)
  {
  }

  /** The spool with no process running, holding the given tables. */
  function Rebooted(s: State, t: Tables): State {
    s.(tables := t, workers := map[], restores := map[], runner := Idle)
  }

  /** Extract the zips into the inbox, list it, ingest it. */
  ghost function Restored(s: State, zips: seq<map<Name, File>>, w: nat, listing: seq<Name>, now: int,
                          trouble: Name -> Trouble): State
  {
    Exec(s.(dirs := s.dirs.(inbox := ExtractedAll(s.dirs.inbox, zips, now))), IngestRun(w, listing, trouble))
  }

  /** The zips come from readable archives of a state the pipeline reached. */
  ghost predicate ArchivedIn(c: World, s: State, zips: seq<map<Name, File>>) {
    forall i :: 0 <= i < |zips| ==> EntriesOk(c, s.tables, zips[i])
  }

  /** The listing is the inbox, in any order. */
  ghost predicate Lists(listing: seq<Name>, inbox: Dir) {
    Distinct(listing) && forall n :: n in listing <==> n in inbox
  }

  /** The file that reaches the inbox is whole; always so when no restore ever died half way. */
  ghost predicate Readable(c: World, s: State, zips: seq<map<Name, File>>, n: Name, now: int) {
    var inbox := ExtractedAll(s.dirs.inbox, zips, now);
    n in inbox && inbox[n].content == c.log(n)
  }

  lemma UntornIsReadable(c: World, s: State, zips: seq<map<Name, File>>, i: nat, n: Name, now: int)
    requires !c.torn && Inv(c, s) && ArchivedIn(c, s, zips) && i < |zips| && n in zips[i]
    ensures Readable(c, s, zips, n, now)
  {
    ArchivedAgree(c, s, zips);
    ExtractedAllAgrees(c, s.dirs.inbox, zips, now);
    ExtractedAllHas(s.dirs.inbox, zips, now, n);
    assert Agrees(c, n, ExtractedAll(s.dirs.inbox, zips, now)[n].content);
  }

  lemma ArchivedAgree(c: World, s: State, zips: seq<map<Name, File>>)
    requires ArchivedIn(c, s, zips)
    ensures forall i :: 0 <= i < |zips| ==> AllAgree(c, zips[i])
  {
  }

  lemma BeginAndRun(s: State, w: nat, listing: seq<Name>, now: int)
    requires w !in s.workers && Distinct(listing)
    ensures Exec(s, IngestRun(w, listing, CalmAlways(now)))
         == Step(Exec(SetWorker(s, w, Worker(listing, Next, ZERO, |listing|)), CalmRounds(w, |listing|, now)), Die(w))
  {
    CalmRoundsAre(w, listing, now);
    ExecThree(s, [Begin(w, listing)], CalmRounds(w, |listing|, now), [Die(w)]);
    BeginIs(s, w, listing);
    ExecOne(Exec(SetWorker(s, w, Worker(listing, Next, ZERO, |listing|)), CalmRounds(w, |listing|, now)), Die(w));
  }

  lemma BeginIs(s: State, w: nat, listing: seq<Name>)
    requires w !in s.workers && Distinct(listing)
    ensures Exec(s, [Begin(w, listing)]) == SetWorker(s, w, Worker(listing, Next, ZERO, |listing|))
  {
    ExecOne(s, Begin(w, listing));
  }

  /** The spool with the archives extracted, before the ingest run starts. */
  function Unpacked(s: State, t: Tables, zips: seq<map<Name, File>>, now: int): State {
    var s0 := Rebooted(s, t);
    s0.(dirs := s0.dirs.(inbox := ExtractedAll(s0.dirs.inbox, zips, now)))
  }

  lemma RestoreReplays(c: World, s: State, t: Tables, zips: seq<map<Name, File>>, w: nat, listing: seq<Name>, now: int)
    requires Sound(c) && s.reg == c.reg && TablesOk(c, t) && AllAgree(c, ExtractedAll(s.dirs.inbox, zips, now))
    requires Lists(listing, ExtractedAll(s.dirs.inbox, zips, now))
    ensures Replayed(c, Unpacked(s, t, zips, now), listing,
                     Restored(Rebooted(s, t), zips, w, listing, now, CalmAlways(now)))
  {
    var s1 := Unpacked(s, t, zips, now);
    BeginAndRun(s1, w, listing, now);
    var s2 := SetWorker(s1, w, Worker(listing, Next, ZERO, |listing|));
    CalmIngest(c, s2, w, now);
  }

  lemma RestoreTraces(c: World, s: State, t: Tables, zips: seq<map<Name, File>>, w: nat, listing: seq<Name>, now: int)
    requires Sound(c) && s.reg == c.reg && TablesOk(c, t) && AllAgree(c, ExtractedAll(s.dirs.inbox, zips, now))
    requires Lists(listing, ExtractedAll(s.dirs.inbox, zips, now))
    ensures Traced(Unpacked(s, t, zips, now), listing, Restored(Rebooted(s, t), zips, w, listing, now, CalmAlways(now)))
  {
    var s1 := Unpacked(s, t, zips, now);
    BeginAndRun(s1, w, listing, now);
    CalmTraces(c, SetWorker(s1, w, Worker(listing, Next, ZERO, |listing|)), w, now);
  }

  lemma Rebuilt(c: World, s: State, s2: State, s': State, listing: seq<Name>, entries: map<Name, File>, n: Name)
    requires Sound(c) && TablesOk(c, s.tables) && EntriesOk(c, s.tables, entries) && n in entries
    requires (forall m :: m in listing ==> m in s2.dirs.inbox) && Replayed(c, s2, listing, s')
    requires n in listing && s2.dirs.inbox[n].content == c.log(n)
    ensures SameRows(s.tables, s'.tables, n) && n in s'.dirs.processed
  {
    assert Done(c, s.tables, n);
    assert Classify(s2.dirs.inbox[n].content) == c.verdict(n);
    RecordedAlike(c, s.tables, s'.tables, n);
  }

  /** The copy of an event that a restore leaves in the inbox: the one that is there, or else the one in
      the first zip that has it. */
  function FirstCopy(inbox: Dir, zips: seq<map<Name, File>>, n: Name): Option<Content>
    decreases |zips|
  {
    if n in inbox then Some(inbox[n].content)
    else if zips == [] then None
    else if n in zips[0] then Some(zips[0][n].content)
    else FirstCopy(inbox, zips[1..], n)
  }

  lemma {:induction false} ExtractedFirst(inbox: Dir, zips: seq<map<Name, File>>, now: int, n: Name)
    ensures var all := ExtractedAll(inbox, zips, now);
            FirstCopy(inbox, zips, n) == if n in all then Some(all[n].content) else None
    decreases |zips|
  {
    if zips != [] {
      var inbox' := Extracted(inbox, zips[0], now);
      ExtractedFirst(inbox', zips[1..], now, n);
      if n !in inbox && n !in zips[0] {
        FirstCopySame(inbox, inbox', zips[1..], n);
      }
    }
  }

  lemma {:induction false} FirstCopySame(a: Dir, b: Dir, zips: seq<map<Name, File>>, n: Name)
    requires n !in a && n !in b
    ensures FirstCopy(a, zips, n) == FirstCopy(b, zips, n)
    decreases |zips|
  {
    if zips != [] {
      FirstCopySame(a, b, zips[1..], n);
    }
  }

  /** Whether a file reaches the inbox whole is decided before the restore, by the first copy there is. */
  lemma ReadableMeans(c: World, s: State, zips: seq<map<Name, File>>, n: Name, now: int)
    ensures Readable(c, s, zips, n, now) <==> FirstCopy(s.dirs.inbox, zips, n) == Some(c.log(n))
  {
    ExtractedFirst(s.dirs.inbox, zips, now, n);
  }

  lemma NotRebuilt(c: World, s: State, s2: State, s': State, listing: seq<Name>, n: Name)
    requires Sound(c) && TablesOk(c, s.tables) && TablesOk(c, s'.tables) && Done(c, s.tables, n)
             && s2.tables == EMPTY_TABLES
    requires (forall m :: m in listing ==> m in s2.dirs.inbox) && Traced(s2, listing, s')
    requires n in listing && !Classify(s2.dirs.inbox[n].content).Accepted?
    ensures n !in s'.tables.raw && n !in s'.tables.business && n !in s'.tables.ai
    ensures SameRows(s.tables, s'.tables, n) <==> !RawComplete(c.verdict(n).fields)
  {
    assert n in s.tables.raw ==> RawRowOk(c, n, s.tables.raw[n]);
    assert n in s.tables.business ==> BusinessRowOk(c, n, s.tables.business[n]);
    assert n in s.tables.ai ==> AiRowOk(c, n, s.tables.ai[n]);
  }

  lemma EmptyIsOk(c: World)
    ensures TablesOk(c, EMPTY_TABLES)
  {
  }

  /** Disaster recovery: after every table is lost, restoring archives (one weekly zip, or the weekly
      zips inside a yearly one) and one error-free ingest rebuild the rows an archived event had, apart
      from the time of receipt, exactly when its file reaches the inbox whole or it never had a row.
      A file that does not reach it whole and does not parse ends in failed/. */
  lemma DisasterRecovery(c: World, s: State, zips: seq<map<Name, File>>, i: nat, n: Name, w: nat, listing: seq<Name>,
                         now: int)
    requires Sound(c) && Inv(c, s) && ArchivedIn(c, s, zips) && i < |zips| && n in zips[i]
    requires Lists(listing, ExtractedAll(s.dirs.inbox, zips, now))
    ensures var s' := Restored(Rebooted(s, EMPTY_TABLES), zips, w, listing, now, CalmAlways(now));
            && c.verdict(n).Accepted?
            && (SameRows(s.tables, s'.tables, n) <==> Readable(c, s, zips, n, now) || !RawComplete(c.verdict(n).fields))
            && (Readable(c, s, zips, n, now) ==> n in s'.dirs.processed)
            && (FirstCopy(s.dirs.inbox, zips, n) == Some(NotJson) ==> n in s'.dirs.failed)
  {
    ArchivedAgree(c, s, zips);
    ExtractedAllAgrees(c, s.dirs.inbox, zips, now);
    ExtractedAllHas(s.dirs.inbox, zips, now, n);
    ExtractedFirst(s.dirs.inbox, zips, now, n);
    EmptyIsOk(c);
    RestoreReplays(c, s, EMPTY_TABLES, zips, w, listing, now);
    RestoreTraces(c, s, EMPTY_TABLES, zips, w, listing, now);
    var s' := Restored(Rebooted(s, EMPTY_TABLES), zips, w, listing, now, CalmAlways(now));
    assert EntriesOk(c, s.tables, zips[i]);
    RebuiltExactly(c, s, Unpacked(s, EMPTY_TABLES, zips, now), s', listing, zips[i], n);
  }

  /** What becomes of an archived event, by what its file in the inbox holds. */
  lemma RebuiltExactly(c: World, s: State, s2: State, s': State, listing: seq<Name>, entries: map<Name, File>, n: Name)
    requires Sound(c) && TablesOk(c, s.tables) && EntriesOk(c, s.tables, entries) && n in entries
             && s2.tables == EMPTY_TABLES
    requires (forall m :: m in listing ==> m in s2.dirs.inbox) && n in listing && Agrees(c, n, s2.dirs.inbox[n].content)
    requires Replayed(c, s2, listing, s') && Traced(s2, listing, s')
    ensures var content := s2.dirs.inbox[n].content;
            && c.verdict(n).Accepted?
            && (SameRows(s.tables, s'.tables, n) <==> content == c.log(n) || !RawComplete(c.verdict(n).fields))
            && (content == c.log(n) ==> n in s'.dirs.processed)
            && (content == NotJson ==> n in s'.dirs.failed)
  {
    assert Done(c, s.tables, n);
    if s2.dirs.inbox[n].content == c.log(n) {
      Rebuilt(c, s, s2, s', listing, entries, n);
    } else {
      NotRebuilt(c, s, s2, s', listing, n);
    }
  }

  /** The crash that breaks it: a restore dies while it writes the file, and the next restore skips the
      member because its name is there.  The rows of the event are not rebuilt. */
  lemma TornRestoreLoses(c: World, s: State, r: nat, n: Name, at: int, cut: Cut, zips: seq<map<Name, File>>, i: nat,
                         w: nat, listing: seq<Name>, now: int)
    requires Sound(c) && c.torn && Inv(c, s) && RunnerSafe(s) && r in s.restores && n in s.restores[r] && cut != Whole
    requires ArchivedIn(c, s, zips) && i < |zips| && n in zips[i] && RawComplete(c.verdict(n).fields)
    requires var torn := Step(s, Restore(r, RestoreCopy(n, at, cut)));
             Lists(listing, ExtractedAll(torn.dirs.inbox, zips, now))
    ensures var torn := Step(s, Restore(r, RestoreCopy(n, at, cut)));
            var s' := Restored(Rebooted(torn, EMPTY_TABLES), zips, w, listing, now, CalmAlways(now));
            !SameRows(s.tables, s'.tables, n) && (cut == CutText ==> n in s'.dirs.failed)
  {
    var torn := Step(s, Restore(r, RestoreCopy(n, at, cut)));
    StepInv(c, s, Restore(r, RestoreCopy(n, at, cut)));
    assert EntriesOk(c, s.tables, zips[i]) && Done(c, s.tables, n);
    assert FirstCopy(torn.dirs.inbox, zips, n) == Some(Written(s.restores[r][n].content, cut));
    ReadableMeans(c, torn, zips, n, now);
    assert Classify(c.log(n)).Accepted?;
    DisasterRecovery(c, torn, zips, i, n, w, listing, now);
  }

  /** On a healthy database the same procedure changes no row; with an empty inbox before it, it
      adds none either. */
  lemma HealthyRestore(c: World, s: State, zips: seq<map<Name, File>>, w: nat, listing: seq<Name>, now: int)
    requires Sound(c) && Inv(c, s) && ArchivedIn(c, s, zips)
    requires Lists(listing, ExtractedAll(s.dirs.inbox, zips, now))
    ensures var s' := Restored(Rebooted(s, s.tables), zips, w, listing, now, CalmAlways(now));
            Extends(s.tables, s'.tables) && (s.dirs.inbox == map[] ==> s'.tables == s.tables)
  {
    ArchivedAgree(c, s, zips);
    ExtractedAllAgrees(c, s.dirs.inbox, zips, now);
    RestoreReplays(c, s, s.tables, zips, w, listing, now);
    if s.dirs.inbox == map[] {
      forall n | n in listing ensures Done(c, s.tables, n) {
        ExtractedAllOrigin(s.dirs.inbox, zips, now, n);
        var i :| 0 <= i < |zips| && n in zips[i];
        assert EntriesOk(c, s.tables, zips[i]);
      }
    }
  }

  /** The entries of a readable weekly archive, and of the weekly archives in a readable yearly one,
      of any reachable state are such zips. */
  lemma ArchivesAreRestorable(c: World, s: State, week: int, year: int)
    requires Inv(c, s)
    ensures week in s.archives.weekly && s.archives.weekly[week].intact ==>
              ArchivedIn(c, s, [s.archives.weekly[week].entries])
    ensures year in s.archives.yearly && s.archives.yearly[year].intact ==>
              forall w :: w in s.archives.yearly[year].weeks && s.archives.yearly[year].weeks[w].intact ==>
                            EntriesOk(c, s.tables, s.archives.yearly[year].weeks[w].entries)
  {
  }
}

/** The spool as the program works on it: an object whose methods rename files, write rows and build
    archives.  Every method hands back the run of the transition system it performs, so everything
    proved about runs holds of it. */
module SpoolRoots {
  import opened Collections
  import opened Documents
  import opened Rows
  import opened Spool
  import opened Conservation
  import opened Outcomes
  import opened Turns
  import opened Recovery
  import opened Lifecycle
  import opened Consolidation
  import opened Schedule
  import Calendar

  class IngestResult {
    var processed: nat
    var failed: nat
    var skipped: nat
    var lockError: bool

    constructor ()
      ensures Value() == ZERO
    {
      processed, failed, skipped, lockError := 0, 0, 0, false;
    }

    function Value(): Counters
      reads this
    {
      Counters(processed, failed, skipped, lockError)
    }
  }

  datatype Source = FromSpool | FromProcessing

  /** The exception that leaves the per-file function, `Fine` for none. */
  function Raised(v: Verdict, reg: Registry, x: Trouble): Fault {
    if x.read != Fine || v.Unparsed? || v.Rejected? then Fine
    else if v.Escapes? then Broken
    else if x.raw != Fine then x.raw
    else if CanonicalFails(reg, v.fields, x) then x.canonical
    else if x.finish != Fine then Broken
    else Fine
  }

  /** Where the per-file function leaves a claimed file, before the handlers around it act. */
  function Left(v: Verdict, reg: Registry, x: Trouble): Place {
    if v.Accepted? && x.read == Fine && x.raw != Fine && x.putBack then InInbox else Destination(v, reg, x)
  }

  /** An ingest run started on an idle spool: what it does, and that no event name is lost. */
  lemma IngestKeeps(s: State, s': State, listing: seq<Name>, trouble: Name -> Trouble, result: Counters)
    requires s.workers == map[] && s.runner == Idle && Distinct(listing)
    requires s' == s.(dirs := s'.dirs, tables := s'.tables)
    requires Shelf(s'.dirs, s'.tables, result) == TurnAll(Shelf(s.dirs, s.tables, ZERO), s.reg, listing, trouble)
    ensures s' == Exec(s, IngestRun(0, listing, trouble)) && Keeps(s, s') && Total(result) == |listing|
  {
    IngestIsARun(s, 0, listing, trouble);
    NothingLost(s, IngestRun(0, listing, trouble));
    TurnsCount(Shelf(s.dirs, s.tables, ZERO), s.reg, listing, trouble);
  }

  datatype ArchiveResult =
    | AlreadyExists | ListingFailed | NothingInWindow | ZipFailed | VerifyFailed | Bundled(count: nat)

  datatype RestoreResult = NotFound | Corrupt | DryRun(total: nat) | Ingested(written: nat, skipped: nat)

  /** Which payload keys an event type must have. */
  type PayloadKeys = map<string, set<Key>>

  /** Only an object payload of a known type can be found wanting: any other error while checking
      is swallowed. */
  predicate PayloadComplete(required: PayloadKeys, f: Fields) {
    var eventType := if EventType in f then f[EventType] else Str("");
    var payload := Or(Get(f, Payload), Obj(map[]));
    eventType.Str? && eventType.s in required && payload.Obj? ==> required[eventType.s] <= payload.fields.Keys
  }

  /** A key the event's type must have is missing from its payload: from an object that is given, or from the
      empty one that stands for a payload that is empty or not there. */
  predicate Lacks(required: PayloadKeys, f: Fields, k: Key) {
    var kind, payload := if EventType in f then f[EventType] else Str(""), Get(f, Payload);
    && kind.Str? && kind.s in required && k in required[kind.s]
    && (Truthy(payload) ==> payload.Obj? && k !in payload.fields)
  }

  lemma IncompleteIs(required: PayloadKeys, f: Fields)
    ensures PayloadComplete(required, f) <==> forall k :: !Lacks(required, f, k)
  {
    var kind, payload := if EventType in f then f[EventType] else Str(""), Or(Get(f, Payload), Obj(map[]));
    if !PayloadComplete(required, f) {
      var k :| k in required[kind.s] && k !in payload.fields;
      assert Lacks(required, f, k);
    }
    if k :| Lacks(required, f, k) {
      assert k in required[kind.s] && payload.Obj? && k !in payload.fields;
    }
  }

  /** Fill in the schema version and the id; nothing given is changed. */
  method Completed(envelope: Fields, uuid: string) returns (f: Fields)
    ensures SubMap(envelope, f) && f.Keys == envelope.Keys + {EventId, SchemaVersion}
    ensures EventId !in envelope ==> f[EventId] == Str(uuid)
    ensures SchemaVersion !in envelope ==> f[SchemaVersion] == Num(1)
  {
    f := envelope;
    if SchemaVersion !in f {
      f := f[SchemaVersion := Num(1)];
    }
    if EventId !in f {
      f := f[EventId := Str(uuid)];
    }
  }

  datatype WriteResult = Refused | WriteFailed | Written(name: Name)

  /** What archiving a week comes to. */
  function WeekOutcome(processed: Dir, weekly: map<int, WeekZip>, midnight: int -> int, week: int,
                       x: Storage): ArchiveResult {
    var files := Selected(processed, midnight, week);
    if week in weekly then AlreadyExists
    else if !x.listable then ListingFailed
    else if files == map[] then NothingInWindow
    else if Breaks(x.breaksAt, |files|) then ZipFailed
    else if !Verified(x.zip(files), x.opens, |files|) then VerifyFailed
    else Bundled(|files|)
  }

  function YearOutcome(weekly: map<int, WeekZip>, yearly: map<int, YearZip>, year: int, x: YearStorage): ArchiveResult {
    var zips := ZipsOf(weekly, year);
    if year in yearly then AlreadyExists
    else if !x.listable then ListingFailed
    else if zips == map[] then NothingInWindow
    else if Breaks(x.breaksAt, |zips|) then ZipFailed
    else if !YearVerified(x.zip(zips), x.opens, |zips|) then VerifyFailed
    else Bundled(|zips|)
  }

  /** The keys of a directory or an archive, in whatever order the system lists them. */
  method ListKeys<K, V>(m: map<K, V>) returns (names: seq<K>)
    ensures Distinct(names) && forall n :: n in names <==> n in m
  {
    names := [];
    var left := m.Keys;
    while left != {}
      invariant left <= m.Keys && Distinct(names) && forall n :: n in names <==> n in m && n !in left
      decreases left
    {
      var n :| n in left;
      names, left := names + [n], left - {n};
    }
  }

  /** Writing entries to a zip one by one; `breaksAt` is the entry at which it fails, if any. */
  method WriteZip<K, V>(source: map<K, V>, keys: seq<K>, breaksAt: Option<nat>) returns (built: map<K, V>, ok: bool)
    requires forall i :: 0 <= i < |keys| ==> keys[i] in source
    ensures ok <==> !Breaks(breaksAt, |keys|)
    ensures ok ==> built == Only(source, keys)
  {
    built := map[];
    var i := 0;
    while i < |keys|
      invariant 0 <= i <= |keys| && (breaksAt.Some? ==> i <= breaksAt.value) && built == Only(source, keys[..i])
    {
      if breaksAt == Some(i) {
        return built, false;
      }
      assert keys[..i + 1] == keys[..i] + [keys[i]];
      OnlyLast(source, keys[..i], keys[i]);
      built := built[keys[i] := source[keys[i]]];
      i := i + 1;
    }
    assert keys[..i] == keys;
    ok := true;
  }

  function Entries(zip: YearZip, weeks: seq<int>): nat {
    if weeks == [] then 0
    else
      var w := weeks[|weeks| - 1];
      Entries(zip, weeks[..|weeks| - 1]) + if w in zip.weeks then |zip.weeks[w].entries| else 0
  }

  /** The events in a set of weekly zips, each with the week it is in. */
  function Events(weeks: map<int, WeekZip>): set<(int, Name)> {
    set w, n | w in weeks && n in weeks[w].entries :: (w, n)
  }

  function Within(w: int, names: set<Name>): set<(int, Name)> {
    set n | n in names :: (w, n)
  }

  lemma {:induction false} WithinCount(w: int, names: set<Name>)
    ensures |Within(w, names)| == |names|
    decreases names
  {
    if names != {} {
      var n :| n in names;
      WithinCount(w, names - {n});
      assert Within(w, names) == Within(w, names - {n}) + {(w, n)};
    } else {
      assert Within(w, names) == {};
    }
  }

  lemma EventsNext(weeks: map<int, WeekZip>, w: int, zip: WeekZip)
    requires w !in weeks
    ensures |Events(weeks[w := zip])| == |Events(weeks)| + |zip.entries|
  {
    WithinCount(w, zip.entries.Keys);
    EventsSplit(weeks, w, zip);
    assert |zip.entries| == |zip.entries.Keys|;
  }

  lemma EventsSplit(weeks: map<int, WeekZip>, w: int, zip: WeekZip)
    requires w !in weeks
    ensures Events(weeks[w := zip]) == Events(weeks) + Within(w, zip.entries.Keys)
    ensures Events(weeks) !! Within(w, zip.entries.Keys)
  {
  }

  /** Counting in whatever order the members are listed. */
  lemma {:induction false} EntriesCount(zip: YearZip, members: seq<int>)
    requires Distinct(members) && forall i :: 0 <= i < |members| ==> members[i] in zip.weeks
    ensures Entries(zip, members) == |Events(Only(zip.weeks, members))|
  {
    if members != [] {
      var init, w: int := members[..|members| - 1], members[|members| - 1];
      EntriesCount(zip, init);
      assert members == init + [w];
      OnlyLast(zip.weeks, init, w);
      assert w !in Only(zip.weeks, init);
      EventsNext(Only(zip.weeks, init), w, zip.weeks[w]);
    } else {
      assert Events(Only(zip.weeks, members)) == {};
    }
  }

  /** How a zip reads: whether its directory does, and which members.  A zip that passes its CRC pass
      reads whole. */
  datatype Reading = Reading(opens: bool, gives: Name -> bool)

  /** Every member that is not in the inbox already can be read. */
  predicate AllRead(entries: Dir, inbox: Dir, gives: Name -> bool) {
    forall n :: n in entries ==> n in inbox || gives(n)
  }

  /** Some of the members, all of them there already or readable. */
  ghost predicate PartRead(part: Dir, entries: Dir, inbox: Dir, gives: Name -> bool) {
    SubMap(part, entries) && AllRead(part, inbox, gives)
  }

  predicate AllOpen(zip: YearZip, readings: int -> Reading) {
    forall w :: w in zip.weeks ==> readings(w).opens
  }

  /** The zips are weekly zips of the yearly archive, and all of them are there. */
  ghost predicate WholeZips(zips: seq<Dir>, zip: YearZip) {
    && (forall z :: z in zips ==> exists w :: w in zip.weeks && z == zip.weeks[w].entries)
    && (forall w :: w in zip.weeks ==> zip.weeks[w].entries in zips)
  }

  /** The zips are weekly zips of the yearly archive, the last perhaps in part. */
  ghost predicate PartZips(zips: seq<Dir>, zip: YearZip) {
    forall z :: z in zips ==> exists w :: w in zip.weeks && SubMap(z, zip.weeks[w].entries)
  }

  /** A member of the yearly archive that is missing from the inbox and cannot be read. */
  ghost predicate SomeUnread(zip: YearZip, inbox: Dir, readings: int -> Reading) {
    exists w :: w in zip.weeks && !AllRead(zip.weeks[w].entries, inbox, readings(w).gives)
  }

  /** The zips are the entries of the first k weekly archives. */
  predicate Taken(zips: seq<Dir>, zip: YearZip, names: seq<int>, k: nat) {
    && |zips| == k <= |names|
    && forall i :: 0 <= i < k ==> names[i] in zip.weeks && zips[i] == zip.weeks[names[i]].entries
  }

  lemma TakenAll(zips: seq<Dir>, zip: YearZip, names: seq<int>)
    requires Taken(zips, zip, names, |names|) && forall w :: w in names <==> w in zip.weeks
    ensures WholeZips(zips, zip)
  {
    forall w | w in zip.weeks ensures zip.weeks[w].entries in zips {
      assert w in names;
      var i :| 0 <= i < |names| && names[i] == w;
      assert zips[i] == zip.weeks[w].entries;
    }
    forall z | z in zips ensures exists w :: w in zip.weeks && z == zip.weeks[w].entries {
      var i :| 0 <= i < |zips| && zips[i] == z;
      var w: int := names[i];
      assert w in zip.weeks;
    }
  }

  lemma TakenPart(zips: seq<Dir>, zip: YearZip, names: seq<int>, k: nat, w: int, part: Dir)
    requires Taken(zips, zip, names, k) && w in zip.weeks && SubMap(part, zip.weeks[w].entries)
    ensures PartZips(zips + [part], zip)
  {
    forall z | z in zips + [part] ensures exists w :: w in zip.weeks && SubMap(z, zip.weeks[w].entries) {
      if z != part {
        var i :| 0 <= i < |zips| && zips[i] == z;
        var m: int := names[i];
        assert m in zip.weeks && SubMap(z, zip.weeks[m].entries);
      }
    }
  }

  /** The names in a yearly archive that the inbox does not have. */
  function NewNames(zip: YearZip, inbox: Dir): set<Name> {
    set w, n | w in zip.weeks && n in zip.weeks[w].entries && n !in inbox :: n
  }

  lemma SetSplits(all: set<Name>, there: set<Name>)
    ensures |all| == |all - there| + |all * there|
  {
    assert all == (all - there) + (all * there);
  }

  /** Extraction adds the members the inbox does not have. */
  lemma ExtractedGrows(inbox: Dir, entries: Dir, now: int)
    ensures |Extracted(inbox, entries, now)| == |inbox| + |entries.Keys - inbox.Keys|
  {
    var after, more := Extracted(inbox, entries, now), entries.Keys - inbox.Keys;
    assert after.Keys == inbox.Keys + more;
    assert |after| == |after.Keys| && |inbox| == |inbox.Keys|;
  }

  lemma ExtractedCounts(inbox: Dir, after: Dir, entries: Dir, now: int, written: nat, skipped: nat)
    requires after == Extracted(inbox, entries, now) && |after| == |inbox| + written
    requires written + skipped == |entries|
    ensures written == |set n | n in entries && n !in inbox| && skipped == |set n | n in entries && n in inbox|
  {
    ExtractedGrows(inbox, entries, now);
    SetSplits(entries.Keys, inbox.Keys);
    assert (set n | n in entries && n !in inbox) == entries.Keys - inbox.Keys;
    assert (set n | n in entries && n in inbox) == entries.Keys * inbox.Keys;
    assert |entries| == |entries.Keys|;
  }

  lemma {:induction false} ExtractedNames(inbox: Dir, zips: seq<Dir>, now: int, n: Name)
    ensures n in ExtractedAll(inbox, zips, now) <==> n in inbox || exists z :: z in zips && n in z
    decreases |zips|
  {
    if zips != [] {
      ExtractedNames(Extracted(inbox, zips[0], now), zips[1..], now, n);
      assert zips == [zips[0]] + zips[1..];
    }
  }

  lemma YearGrows(inbox: Dir, zip: YearZip, zips: seq<Dir>, now: int)
    requires WholeZips(zips, zip)
    ensures |ExtractedAll(inbox, zips, now)| == |inbox| + |NewNames(zip, inbox)|
  {
    var after := ExtractedAll(inbox, zips, now);
    forall n ensures n in after <==> n in inbox || n in NewNames(zip, inbox) {
      ExtractedNames(inbox, zips, now, n);
      if n in after && n !in inbox {
        var z :| z in zips && n in z;
        var w :| w in zip.weeks && z == zip.weeks[w].entries;
      }
    }
    assert after.Keys == inbox.Keys + NewNames(zip, inbox);
    assert |after| == |after.Keys| && |inbox| == |inbox.Keys|;
  }

  lemma TakenMore(zips: seq<Dir>, zip: YearZip, names: seq<int>, k: nat)
    requires Taken(zips, zip, names, k) && k < |names| && names[k] in zip.weeks
    ensures Taken(zips + [zip.weeks[names[k]].entries], zip, names, k + 1)
  {
  }

  /** A member of zip k that is missing and cannot be read stops the restore. */
  lemma StoppedThere(zip: YearZip, readings: int -> Reading, zips: seq<Dir>, names: seq<int>, k: nat, part: Dir,
                     before: Dir, start: Dir)
    requires Taken(zips, zip, names, k) && k < |names| && names[k] in zip.weeks
    requires SubMap(part, zip.weeks[names[k]].entries) && forall n :: n in start ==> n in before
    requires !AllRead(zip.weeks[names[k]].entries, before, readings(names[k]).gives)
    ensures PartZips(zips + [part], zip) && SomeUnread(zip, start, readings)
  {
    var m: int := names[k];
    TakenPart(zips, zip, names, k, m, part);
    assert !AllRead(zip.weeks[m].entries, start, readings(m).gives);
  }

  /** The members up to one that cannot be read, or all of them. */
  lemma PartIs(inbox: Dir, entries: Dir, members: seq<Name>, upTo: nat, gives: Name -> bool)
    requires Only(entries, members) == entries && upTo <= |members|
    requires forall i :: 0 <= i < |members| ==> members[i] in entries
    requires forall i :: 0 <= i < upTo ==> members[i] in inbox || gives(members[i])
    requires upTo < |members| ==> members[upTo] !in inbox && !gives(members[upTo])
    ensures PartRead(Only(entries, members[..upTo]), entries, inbox, gives)
    ensures upTo == |members| ==> Only(entries, members[..upTo]) == entries
    ensures upTo == |members| <==> AllRead(entries, inbox, gives)
  {
    if upTo == |members| {
      assert members[..upTo] == members;
    }
  }

  lemma EntriesNext(zip: YearZip, names: seq<int>, k: nat)
    requires k < |names| && names[k] in zip.weeks
    ensures Entries(zip, names[..k + 1]) == Entries(zip, names[..k]) + |zip.weeks[names[k]].entries|
  {
    assert names[..k + 1][..k] == names[..k];
  }

  /** All zips of the year have been extracted. */
  lemma YearDone(zip: YearZip, names: seq<int>, zips: seq<Dir>, inbox: Dir, now: int)
    requires Distinct(names) && (forall w :: w in names <==> w in zip.weeks) && Taken(zips, zip, names, |names|)
    ensures WholeZips(zips, zip) && Entries(zip, names[..|names|]) == |Events(zip.weeks)|
    ensures |ExtractedAll(inbox, zips, now)| == |inbox| + |NewNames(zip, inbox)|
  {
    TakenAll(zips, zip, names);
    WholeYear(zip, names);
    YearGrows(inbox, zip, zips, now);
  }

  class SpoolRoot {
    var inbox: Dir
    var processing: Dir
    var processed: Dir
    var failed: Dir
    var weekly: map<int, WeekZip>
    var yearly: map<int, YearZip>
    var tables: Tables
    const reg: Registry

    function Dirs(): Spool.Dirs
      reads this
    {
      Spool.Dirs(inbox, processing, processed, failed)
    }

    /** The state of the transition system with no process running. */
    function Now(): State
      reads this
    {
      State(Dirs(), Archives(weekly, yearly), tables, reg, map[], Idle, map[])
    }

    // ---------------------------------------------------------------- writing

    /** Publish an event under its id, all at once or not at all.  A missing schema version or id is
        filled in; nothing the caller gave is changed.  `text` is how an id that is not a string is
        spelled in a file name. */
    method WriteEvent(envelope: Fields, required: PayloadKeys, uuid: string, text: Json -> string, now: int,
                      fault: Fault)
      returns (r: WriteResult, ghost f: Fields)
      modifies this`inbox
      ensures r.Refused? <==> exists k :: Lacks(required, envelope, k)
      ensures r.WriteFailed? <==> !r.Refused? && fault != Fine
      ensures !r.Written? ==> Now() == old(Now())
      ensures r.Written? ==> Now() == Step(old(Now()), Publish(r.name, File(Doc(Obj(f)), now)))
      ensures SubMap(envelope, f) && f.Keys == envelope.Keys + {EventId, SchemaVersion}
      ensures EventId !in envelope ==> f[EventId] == Str(uuid)
      ensures SchemaVersion !in envelope ==> f[SchemaVersion] == Num(1)
      ensures r.Written? ==> r.name == if f[EventId].Str? then f[EventId].s else text(f[EventId])
    {
      IncompleteIs(required, envelope);
      var full := Completed(envelope, uuid);
      f := full;
      if !PayloadComplete(required, envelope) {
        return Refused, f;
      }
      var id := full[EventId];
      var name := if id.Str? then id.s else text(id);
      if fault != Fine {
        return WriteFailed, f;
      }
      inbox := inbox[name := File(Doc(Obj(full)), now)];
      r := Written(name);
    }

    // ---------------------------------------------------------------- ingest

    /** Errors of the rename are swallowed. */
    method MoveToFailed(src: Source, n: Name, ok: bool)
      modifies this`inbox, this`processing, this`failed
      ensures src.FromProcessing? ==>
                Dirs() == if ok && n in old(processing) then ProcessingToFailed(old(Dirs()), n) else old(Dirs())
      ensures src.FromSpool? ==>
                Dirs() == if ok && n in old(inbox) then InboxToFailed(old(Dirs()), n) else old(Dirs())
    {
      if ok && src.FromProcessing? && n in processing {
        processing, failed := processing - {n}, failed[n := processing[n]];
      } else if ok && src.FromSpool? && n in inbox {
        inbox, failed := inbox - {n}, failed[n := inbox[n]];
      }
    }

    method ProcessOne(n: Name, x: Trouble, result: IngestResult) returns (exception: Fault)
      modifies this`inbox, this`processing, this`processed, this`failed, this`tables, result
      ensures n !in old(inbox) || x.claim != Fine ==>
                && exception == (if n !in old(inbox) then Gone else Broken)
                && Dirs() == old(Dirs()) && tables == old(tables) && result.Value() == old(result.Value())
      ensures n in old(inbox) && x.claim == Fine ==>
                var v := Classify(old(inbox)[n].content);
                && exception == Raised(v, reg, x)
                && Dirs() == Placed(old(Dirs()), n, Left(v, reg, x))
                && tables == Tabled(old(tables), v, reg, x)
                && result.Value() == if exception == Fine then Add(old(result.Value()), Counted(v, reg, x))
                                     else old(result.Value())
    {
      if n !in inbox {
        return Gone;
      }
      if x.claim != Fine {
        return Broken;
      }
      ghost var d := Dirs();
      RenamesPlace(d, n);
      inbox, processing := inbox - {n}, processing[n := inbox[n]];
      var v := if x.read != Fine then Unparsed else Classify(processing[n].content);
      match v
      case Unparsed =>
        MoveToFailed(FromProcessing, n, x.move);
        result.failed := result.failed + 1;
        return Fine;
      case Rejected =>
        MoveToFailed(FromProcessing, n, x.move);
        result.failed := result.failed + 1;
        return Fine;
      case Escapes =>
        return Broken;
      case Accepted(f) =>
        exception := Record(n, f, x);
        if exception == Fine {
          result.processed := result.processed + 1;
        }
    }

    /** The part from the raw write on. */
    method Record(n: Name, f: Fields, x: Trouble) returns (exception: Fault)
      requires n in processing && x.read == Fine
      modifies this`inbox, this`processing, this`processed, this`tables
      ensures exception == Raised(Accepted(f), reg, x) && tables == Tabled(old(tables), Accepted(f), reg, x)
      ensures Dirs() == if x.raw != Fine && x.putBack then BackToInbox(old(Dirs()), n)
                        else if exception == Fine then ToProcessed(old(Dirs()), n)
                        else old(Dirs())
    {
      if x.raw != Fine {
        if x.putBack {
          inbox, processing := inbox[n := processing[n]], processing - {n};
        }
        return x.raw;
      }
      tables := InsertRaw(tables, f, x.now);
      if x.canonical != Fine && !RawOnly(reg, f) {
        return x.canonical;
      }
      tables := InsertCanonical(tables, reg, f, x.now);
      if x.finish != Fine {
        return Broken;
      }
      processing, processed := processing - {n}, processed[n := processing[n]];
      return Fine;
    }

    /** An ingest run over a listing: a run of the transition system that loses no event name and
        counts every listed file once. */
    method IngestListed(listing: seq<Name>, trouble: Name -> Trouble) returns (result: IngestResult)
      requires Distinct(listing)
      modifies this`inbox, this`processing, this`processed, this`failed, this`tables
      ensures fresh(result)
      ensures Shelf(Dirs(), tables, result.Value()) == TurnAll(old(Shelf(Dirs(), tables, ZERO)), reg, listing, trouble)
      ensures Total(result.Value()) == |listing|
      ensures Now() == Exec(old(Now()), IngestRun(0, listing, trouble)) && Keeps(old(Now()), Now())
    {
      result := new IngestResult();
      ghost var start := Now();
      IngestLoop(listing, trouble, result);
      IngestKeeps(start, Now(), listing, trouble, result.Value());
    }

    method IngestLoop(listing: seq<Name>, trouble: Name -> Trouble, result: IngestResult)
      modifies this`inbox, this`processing, this`processed, this`failed, this`tables, result
      ensures Shelf(Dirs(), tables, result.Value())
           == TurnAll(old(Shelf(Dirs(), tables, result.Value())), reg, listing, trouble)
    {
      ghost var h := Shelf(Dirs(), tables, result.Value());
      var k := 0;
      while k < |listing|
        invariant 0 <= k <= |listing|
        invariant Shelf(Dirs(), tables, result.Value()) == TurnAll(h, reg, listing[..k], trouble)
      {
        var n := listing[k];
        TurnAllNext(h, reg, listing, trouble, k);
        IngestFile(n, trouble(n), result);
        k := k + 1;
      }
      assert listing[..k] == listing;
    }

    method IngestFile(n: Name, x: Trouble, result: IngestResult)
      modifies this`inbox, this`processing, this`processed, this`failed, this`tables, result
      ensures Shelf(Dirs(), tables, result.Value()) == Turn(old(Shelf(Dirs(), tables, result.Value())), reg, n, x)
    {
      var exception := ProcessOne(n, x, result);
      match exception
      case Fine =>
      case Locked =>
        result.lockError := true;
        result.skipped := result.skipped + 1;
      case Gone =>
        result.skipped := result.skipped + 1;
      case Broken =>
        MoveToFailed(FromSpool, n, x.move);
        result.failed := result.failed + 1;
    }

    /** Listing spool/ and ingesting what is there. */
    method Ingest(trouble: Name -> Trouble) returns (result: IngestResult, ghost listing: seq<Name>)
      modifies this`inbox, this`processing, this`processed, this`failed, this`tables
      ensures fresh(result) && Lists(listing, old(inbox)) && Total(result.Value()) == |listing|
      ensures Shelf(Dirs(), tables, result.Value()) == TurnAll(old(Shelf(Dirs(), tables, ZERO)), reg, listing, trouble)
      ensures CountersAre(result.Value(), old(inbox), reg, listing, trouble)
      ensures Now() == Exec(old(Now()), IngestRun(0, listing, trouble)) && Keeps(old(Now()), Now())
    {
      var names := ListKeys(inbox);
      listing := names;
      CountersExact(Shelf(Dirs(), tables, ZERO), reg, listing, trouble);
      result := IngestListed(names, trouble);
    }

    // ---------------------------------------------------------------- archiving

    method SelectWeek(midnight: int -> int, monday: int) returns (candidates: seq<Name>)
      ensures Distinct(candidates)
      ensures forall n :: n in candidates <==> n in Selected(processed, midnight, monday)
    {
      var names := ListKeys(processed);
      candidates := [];
      var k := 0;
      while k < |names|
        invariant 0 <= k <= |names| && Distinct(candidates)
        invariant forall n :: n in candidates <==> n in names[..k] && n in Selected(processed, midnight, monday)
      {
        assert names[k] !in names[..k] && names[..k + 1] == names[..k] + [names[k]];
        if Calendar.InWeek(midnight, monday, processed[names[k]].mtime) {
          candidates := candidates + [names[k]];
        }
        k := k + 1;
      }
      assert names[..k] == names;
    }

    method DeleteFiles(candidates: seq<Name>, deletes: Name -> bool)
      modifies this`processed
      ensures processed == old(processed) - Dropped(candidates, deletes)
    {
      var k := 0;
      while k < |candidates|
        invariant 0 <= k <= |candidates| && processed == old(processed) - Dropped(candidates[..k], deletes)
      {
        var n := candidates[k];
        assert candidates[..k + 1] == candidates[..k] + [n];
        DroppedLast(candidates[..k], n, deletes);
        if deletes(n) {
          processed := processed - {n};
        }
        k := k + 1;
      }
      assert candidates[..k] == candidates;
    }

    /** Bundle the prior week's files.  Whatever goes wrong, the run is one of the transition system
        and every processed file is still held, byte for byte; originals go only after the verified
        zip holds exactly the week's files; a week already archived is left alone. */
    method ArchiveWeek(today: int, midnight: int -> int, x: Storage) returns (r: ArchiveResult, ghost run: seq<Action>)
      requires Faithful(x)
      modifies this`processed, this`weekly
      ensures LifecycleOnly(run) && Now() == Exec(old(Now()), run)
      ensures forall n :: n in old(processed) ==> Held(Now(), n, old(processed)[n])
      ensures r == WeekOutcome(old(processed), old(weekly), midnight, Calendar.PriorMonday(today), x)
      ensures !r.Bundled? ==> processed == old(processed)
      ensures weekly != old(weekly) ==> r.Bundled? || (r.VerifyFailed? && !x.unlinks)
      ensures r.Bundled? ==>
                var week := Calendar.PriorMonday(today);
                var files := Selected(old(processed), midnight, week);
                && weekly == old(weekly)[week := WeekZip(files, true)]
                && processed == old(processed) - (set n | n in files && x.deletes(n))
    {
      ghost var s := Now();
      r, run := ArchiveSteps(today, midnight, x);
      forall n | n in old(processed) ensures Held(Now(), n, old(processed)[n]) {
        assert Held(s, n, s.dirs.processed[n]);
        EveryCrashPointHolds(s, run, n, s.dirs.processed[n]);
      }
    }

    method ArchiveSteps(today: int, midnight: int -> int, x: Storage) returns (r: ArchiveResult, ghost run: seq<Action>)
      requires Faithful(x)
      modifies this`processed, this`weekly
      ensures LifecycleOnly(run) && Now() == Exec(old(Now()), run)
      ensures r == WeekOutcome(old(processed), old(weekly), midnight, Calendar.PriorMonday(today), x)
      ensures !r.Bundled? ==> processed == old(processed)
      ensures weekly != old(weekly) ==> r.Bundled? || (r.VerifyFailed? && !x.unlinks)
      ensures r.Bundled? ==>
                var week := Calendar.PriorMonday(today);
                var files := Selected(old(processed), midnight, week);
                && weekly == old(weekly)[week := WeekZip(files, true)]
                && processed == old(processed) - (set n | n in files && x.deletes(n))
    {
      ghost var s := Now();
      run := [];
      var week := Calendar.PriorMonday(today);
      if week in weekly {
        return AlreadyExists, run;
      }
      if !x.listable {
        return ListingFailed, run;
      }
      var candidates := SelectWeek(midnight, week);
      CandidatesAre(processed, midnight, week, candidates);
      if candidates == [] {
        return NothingInWindow, run;
      }
      forall i | 0 <= i < |candidates| ensures candidates[i] in processed {
        assert candidates[i] in candidates;
      }
      var built, ok := WriteZip(processed, candidates, x.breaksAt);
      if !ok {
        run := AbortedRun(week, candidates, x.breaksAt.value);
        RunsAreLifecycle(week, candidates, x.breaksAt.value, x.zip(map[]), x);
        AbortedChangesNothing(s, week, candidates, x.breaksAt.value);
        return ZipFailed, run;
      }
      var zip := x.zip(built);
      run := ArchiveRun(week, candidates, zip, x);
      RunsAreLifecycle(week, candidates, 0, zip, x);
      ArchiveIsARun(s, week, candidates, zip, x);
      var sealed := SealWeek(week, candidates, zip, x);
      if !sealed {
        return VerifyFailed, run;
      }
      SelectedIsBuilt(s.dirs.processed, midnight, week, candidates, zip);
      r := Bundled(|candidates|);
    }

    /** Publish the zip, verify it, and delete the originals or take it back. */
    method SealWeek(week: int, candidates: seq<Name>, zip: WeekZip, x: Storage) returns (ok: bool)
      requires week !in weekly
      modifies this`processed, this`weekly
      ensures Now() == Archived(old(Now()), week, candidates, zip, x)
      ensures ok <==> Verified(zip, x.opens, |candidates|)
    {
      weekly := weekly[week := zip];
      ok := Verified(zip, x.opens, |candidates|);
      if ok {
        DeleteFiles(candidates, x.deletes);
      } else if x.unlinks {
        weekly := weekly - {week};
        assert weekly == old(weekly);
      }
    }

    method SelectYear(year: int) returns (zips: seq<int>)
      ensures Distinct(zips) && (forall m :: m in zips <==> m in ZipsOf(weekly, year))
      ensures forall i :: 0 <= i < |zips| ==> zips[i] in weekly
    {
      var names := ListKeys(weekly);
      zips := [];
      var k := 0;
      while k < |names|
        invariant 0 <= k <= |names| && Distinct(zips)
        invariant forall m :: m in zips <==> m in names[..k] && m in ZipsOf(weekly, year)
        invariant forall i :: 0 <= i < |zips| ==> zips[i] in weekly
      {
        assert names[k] !in names[..k] && names[..k + 1] == names[..k] + [names[k]];
        if Calendar.InYear(names[k], year) {
          zips := zips + [names[k]];
        }
        k := k + 1;
      }
      assert names[..k] == names;
    }

    method DeleteWeeklies(zips: seq<int>, deletes: int -> bool)
      modifies this`weekly
      ensures weekly == old(weekly) - Dropped(zips, deletes)
    {
      var k := 0;
      while k < |zips|
        invariant 0 <= k <= |zips| && weekly == old(weekly) - Dropped(zips[..k], deletes)
      {
        assert zips[..k + 1] == zips[..k] + [zips[k]];
        DroppedLast(zips[..k], zips[k], deletes);
        if deletes(zips[k]) {
          weekly := weekly - {zips[k]};
        }
        k := k + 1;
      }
      assert zips[..k] == zips;
    }

    /** Bundle a year's weekly zips, with the same promises one level up. */
    method ConsolidateYear(year: int, x: YearStorage) returns (r: ArchiveResult, ghost run: seq<Action>)
      requires FaithfulYear(x)
      modifies this`weekly, this`yearly
      ensures LifecycleOnly(run) && Now() == Exec(old(Now()), run)
      ensures forall n, file :: Held(old(Now()), n, file) ==> Held(Now(), n, file)
      ensures r == YearOutcome(old(weekly), old(yearly), year, x)
      ensures !r.Bundled? ==> weekly == old(weekly)
      ensures yearly != old(yearly) ==> r.Bundled? || (r.VerifyFailed? && !x.unlinks)
      ensures r.Bundled? ==>
                var zips := ZipsOf(old(weekly), year);
                && yearly == old(yearly)[year := YearZip(zips, true)]
                && weekly == old(weekly) - (set m | m in zips && x.deletes(m))
    {
      ghost var s := Now();
      r, run := ConsolidateSteps(year, x);
      forall n, file | Held(s, n, file) ensures Held(Now(), n, file) {
        EveryCrashPointHolds(s, run, n, file);
      }
    }

    method ConsolidateSteps(year: int, x: YearStorage) returns (r: ArchiveResult, ghost run: seq<Action>)
      requires FaithfulYear(x)
      modifies this`weekly, this`yearly
      ensures LifecycleOnly(run) && Now() == Exec(old(Now()), run)
      ensures r == YearOutcome(old(weekly), old(yearly), year, x)
      ensures !r.Bundled? ==> weekly == old(weekly)
      ensures yearly != old(yearly) ==> r.Bundled? || (r.VerifyFailed? && !x.unlinks)
      ensures r.Bundled? ==>
                var zips := ZipsOf(old(weekly), year);
                && yearly == old(yearly)[year := YearZip(zips, true)]
                && weekly == old(weekly) - (set m | m in zips && x.deletes(m))
    {
      ghost var s := Now();
      run := [];
      if year in yearly {
        return AlreadyExists, run;
      }
      if !x.listable {
        return ListingFailed, run;
      }
      var zips := SelectYear(year);
      GatheredAre(weekly, year, zips);
      if zips == [] {
        return NothingInWindow, run;
      }
      var gathered, ok := WriteZip(weekly, zips, x.breaksAt);
      if !ok {
        run := AbortedConsolidation(year, zips, x.breaksAt.value);
        YearRunsAreLifecycle(year, zips, x.breaksAt.value, x.zip(map[]), x);
        AbortedConsolidationChangesNothing(s, year, zips, x.breaksAt.value);
        return ZipFailed, run;
      }
      var zip := x.zip(gathered);
      run := ConsolidationRun(year, zips, zip, x);
      YearRunsAreLifecycle(year, zips, 0, zip, x);
      ConsolidationIsARun(s, year, zips, zip, x);
      var sealed := SealYear(year, zips, zip, x);
      if !sealed {
        return VerifyFailed, run;
      }
      GatheredIsYear(s.archives.weekly, year, zips, zip);
      r := Bundled(|zips|);
    }

    method SealYear(year: int, zips: seq<int>, zip: YearZip, x: YearStorage) returns (ok: bool)
      requires year !in yearly
      modifies this`weekly, this`yearly
      ensures Now() == Consolidated(old(Now()), year, zips, zip, x)
      ensures ok <==> YearVerified(zip, x.opens, |zips|)
    {
      yearly := yearly[year := zip];
      ok := YearVerified(zip, x.opens, |zips|);
      if ok {
        DeleteWeeklies(zips, x.deletes);
      } else if x.unlinks {
        yearly := yearly - {year};
        assert yearly == old(yearly);
      }
    }

    /** What the schedule works on. */
    function Grounds(): Yard
      reads this
    {
      Yard(processed, weekly, yearly)
    }

    /** The scheduled call: archive on a Monday, consolidate the past year on the first of January.
        Whatever goes wrong it is a run of the transition system that holds every file; when nothing
        does, it is the call of the schedule. */
    method CheckAndArchive(today: int, midnight: int -> int, x: Storage, z: YearStorage)
      returns (ghost run: seq<Action>)
      requires today >= 1 && Faithful(x) && FaithfulYear(z)
      modifies this`processed, this`weekly, this`yearly
      ensures LifecycleOnly(run) && Now() == Exec(old(Now()), run)
      ensures forall n :: n in old(processed) ==> Held(Now(), n, old(processed)[n])
      ensures Calm(x) && CalmYear(z) ==> Grounds() == Tended(old(Grounds()), midnight, today)
    {
      ghost var s := Now();
      run := CheckSteps(today, midnight, x, z);
      forall n | n in old(processed) ensures Held(Now(), n, old(processed)[n]) {
        assert Held(s, n, s.dirs.processed[n]);
        EveryCrashPointHolds(s, run, n, s.dirs.processed[n]);
      }
    }

    method CheckSteps(today: int, midnight: int -> int, x: Storage, z: YearStorage) returns (ghost run: seq<Action>)
      requires today >= 1 && Faithful(x) && FaithfulYear(z)
      modifies this`processed, this`weekly, this`yearly
      ensures LifecycleOnly(run) && Now() == Exec(old(Now()), run)
      ensures Calm(x) && CalmYear(z) ==> Grounds() == Tended(old(Grounds()), midnight, today)
    {
      ghost var s := Now();
      run := CheckWeek(today, midnight, x);
      var year := Calendar.YearOf(today);
      if today == Calendar.NewYear(year) {
        ghost var more := CheckYear(year - 1, z);
        ExecConcat(s, run, more);
        run := run + more;
      }
    }

    method CheckWeek(today: int, midnight: int -> int, x: Storage) returns (ghost run: seq<Action>)
      requires Faithful(x)
      modifies this`processed, this`weekly
      ensures LifecycleOnly(run) && Now() == Exec(old(Now()), run)
      ensures Calm(x) ==> Grounds() == WeekTended(old(Grounds()), midnight, today)
    {
      ghost var y := Grounds();
      run := [];
      if Calendar.Monday(today) {
        var r;
        r, run := ArchiveWeek(today, midnight, x);
        if Calm(x) {
          CalmWeek(y, Grounds(), midnight, Calendar.PriorMonday(today), x, r);
        }
      }
    }

    method CheckYear(year: int, z: YearStorage) returns (ghost run: seq<Action>)
      requires FaithfulYear(z)
      modifies this`weekly, this`yearly
      ensures LifecycleOnly(run) && Now() == Exec(old(Now()), run)
      ensures CalmYear(z) ==> Grounds() == YearBundled(old(Grounds()), year)
    {
      ghost var y := Grounds();
      var r;
      r, run := ConsolidateYear(year, z);
      if CalmYear(z) {
        CalmOneYear(y, Grounds(), year, z, r);
      }
    }

    // ---------------------------------------------------------------- restoring

    method CopyToInbox(n: Name, file: File, now: int) returns (written: bool)
      modifies this`inbox
      ensures (written <==> n !in old(inbox)) && |inbox| == |old(inbox)| + if written then 1 else 0
      ensures inbox == if written then old(inbox)[n := File(file.content, now)] else old(inbox)
    {
      written := n !in inbox;
      if written {
        inbox := inbox[n := File(file.content, now)];
      }
    }

    /** Copy every member of a zip that is not already there, up to one that cannot be read. */
    method ExtractZip(entries: Dir, gives: Name -> bool, now: int)
      returns (ok: bool, written: nat, skipped: nat, ghost part: Dir)
      modifies this`inbox
      ensures ok <==> AllRead(entries, old(inbox), gives)
      ensures inbox == Extracted(old(inbox), part, now) && PartRead(part, entries, old(inbox), gives)
      ensures ok ==> part == entries && written + skipped == |entries|
      ensures |inbox| == |old(inbox)| + written
      ensures ok ==> written == |set n | n in entries && n !in old(inbox)|
      ensures ok ==> skipped == |set n | n in entries && n in old(inbox)|
    {
      ghost var before := inbox;
      var members := ListKeys(entries);
      AllMembers(entries, members);
      ghost var upTo;
      ok, written, skipped, upTo := ExtractMembers(entries, members, gives, now);
      CopyAllExtracts(before, entries, members[..upTo], now);
      part := Only(entries, members[..upTo]);
      PartIs(before, entries, members, upTo, gives);
      if ok {
        ExtractedCounts(before, inbox, entries, now, written, skipped);
      }
    }

    /** Restore a weekly archive: extract it, then ingest what is in spool/.  What cannot be read ends
        it with what was extracted before, or with nothing at all if the zip does not even open. */
    method RestoreWeekly(week: int, dryRun: bool, now: int, x: Reading, trouble: Name -> Trouble)
      returns (r: RestoreResult, ghost listing: seq<Name>, ghost part: Dir)
      modifies this`inbox, this`processing, this`processed, this`failed, this`tables
      ensures r.NotFound? <==> week !in weekly
      ensures r.DryRun? <==> week in weekly && x.opens && dryRun
      ensures r.Ingested? <==>
              week in weekly && x.opens && !dryRun && AllRead(weekly[week].entries, old(inbox), x.gives)
      ensures r.DryRun? ==> r.total == |weekly[week].entries|
      ensures r.NotFound? || r.DryRun? || !x.opens ==> Now() == old(Now())
      ensures r.Corrupt? ==>
                && PartRead(part, weekly[week].entries, old(inbox), x.gives)
                && Now() == old(Now()).(dirs := old(Dirs()).(inbox := Extracted(old(inbox), part, now)))
      ensures r.Ingested? ==>
                var entries := weekly[week].entries;
                && r.written == |set n | n in entries && n !in old(inbox)|
                && r.skipped == |set n | n in entries && n in old(inbox)|
                && Lists(listing, ExtractedAll(old(inbox), [entries], now))
                && Now() == Restored(old(Now()), [entries], 0, listing, now, trouble)
    {
      listing, part := [], map[];
      if week !in weekly {
        return NotFound, listing, part;
      }
      ExtractedNone(inbox, now);
      if !x.opens {
        return Corrupt, listing, part;
      }
      var entries := weekly[week].entries;
      if dryRun {
        return DryRun(|entries|), listing, part;
      }
      ghost var s := Now();
      var ok, written, skipped;
      ok, written, skipped, part := ExtractZip(entries, x.gives, now);
      if !ok {
        return Corrupt, listing, part;
      }
      ExtractedOne(s.dirs.inbox, entries, now);
      ghost var s1 := Now();
      var result;
      result, listing := Ingest(trouble);
      RestoredIs(s, s1, Now(), [entries], listing, now, trouble);
      r := Ingested(written, skipped);
    }

    /** The number of weekly zips and of events in a yearly archive, if every zip in it opens. */
    method ScanYearly(zip: YearZip, readings: int -> Reading) returns (ok: bool, weeks: nat, events: nat)
      ensures ok <==> AllOpen(zip, readings)
      ensures ok ==> weeks == |zip.weeks| && events == |Events(zip.weeks)|
    {
      var names := ListKeys(zip.weeks);
      weeks, events := 0, 0;
      while weeks < |names|
        invariant 0 <= weeks <= |names| && events == Entries(zip, names[..weeks])
        invariant forall i :: 0 <= i < weeks ==> readings(names[i]).opens
      {
        assert names[..weeks + 1][..weeks] == names[..weeks];
        var m: int := names[weeks];
        if !readings(m).opens {
          assert m in zip.weeks;
          return false, weeks, events;
        }
        events := events + |zip.weeks[m].entries|;
        weeks := weeks + 1;
      }
      WholeYear(zip, names);
      forall w | w in zip.weeks ensures readings(w).opens {
        assert w in names;
      }
      ok := true;
    }

    /** Extract every weekly zip in turn; a member that cannot be read stops the restore where it stands. */
    method ExtractYear(zip: YearZip, readings: int -> Reading, now: int)
      returns (ok: bool, written: nat, skipped: nat, ghost zips: seq<Dir>)
      requires AllOpen(zip, readings)
      modifies this`inbox
      ensures inbox == ExtractedAll(old(inbox), zips, now)
      ensures if ok then WholeZips(zips, zip) else PartZips(zips, zip) && SomeUnread(zip, old(inbox), readings)
      ensures ok ==> written == |NewNames(zip, old(inbox))| && written + skipped == |Events(zip.weeks)|
    {
      var names := ListKeys(zip.weeks);
      ghost var start := inbox;
      written, skipped, zips := 0, 0, [];
      var k := 0;
      while k < |names|
        invariant 0 <= k <= |names| && inbox == ExtractedAll(start, zips, now)
        invariant Taken(zips, zip, names, k)
        invariant forall n :: n in start ==> n in inbox
        invariant |inbox| == |start| + written && written + skipped == Entries(zip, names[..k])
      {
        EntriesNext(zip, names, k);
        var m: int := names[k];
        var entries := zip.weeks[m].entries;
        ghost var before := inbox;
        var read, w, s;
        ghost var part;
        read, w, s, part := ExtractZip(entries, readings(m).gives, now);
        ExtractedAllNext(start, zips, part, now);
        if !read {
          StoppedThere(zip, readings, zips, names, k, part, before, start);
          return false, written, skipped, zips + [part];
        }
        TakenMore(zips, zip, names, k);
        written, skipped, zips := written + w, skipped + s, zips + [entries];
        k := k + 1;
      }
      YearDone(zip, names, zips, start, now);
      ok := true;
    }

    /** Extract a yearly archive and, if all of it can be read, ingest what is in spool/. */
    method ReplayYear(zip: YearZip, readings: int -> Reading, now: int, trouble: Name -> Trouble)
      returns (r: RestoreResult, ghost listing: seq<Name>, ghost zips: seq<Dir>)
      requires AllOpen(zip, readings)
      modifies this`inbox, this`processing, this`processed, this`failed, this`tables
      ensures r.Corrupt? || r.Ingested?
      ensures r.Corrupt? ==>
                && PartZips(zips, zip) && SomeUnread(zip, old(inbox), readings)
                && Now() == old(Now()).(dirs := old(Dirs()).(inbox := ExtractedAll(old(inbox), zips, now)))
      ensures r.Ingested? ==> WholeZips(zips, zip) && Lists(listing, ExtractedAll(old(inbox), zips, now))
                              && Now() == Restored(old(Now()), zips, 0, listing, now, trouble)
      ensures r.Ingested? ==> r.written == |NewNames(zip, old(inbox))| && r.written + r.skipped == |Events(zip.weeks)|
    {
      ghost var s := Now();
      var ok, written, skipped;
      ok, written, skipped, zips := ExtractYear(zip, readings, now);
      ghost var s1 := Now();
      if !ok {
        return Corrupt, [], zips;
      }
      var result;
      result, listing := Ingest(trouble);
      RestoredIs(s, s1, Now(), zips, listing, now, trouble);
      r := Ingested(written, skipped);
    }

    /** Restore a yearly archive: every zip in it is opened and counted first, so one that does not open
        ends the restore before anything is written. */
    method RestoreYearly(year: int, dryRun: bool, now: int, opens: bool, readings: int -> Reading,
                         trouble: Name -> Trouble)
      returns (r: RestoreResult, ghost listing: seq<Name>, ghost zips: seq<Dir>)
      modifies this`inbox, this`processing, this`processed, this`failed, this`tables
      ensures r.NotFound? <==> year !in yearly
      ensures r.DryRun? <==> year in yearly && opens && AllOpen(yearly[year], readings) && dryRun
      ensures r.Ingested? ==> year in yearly && opens && AllOpen(yearly[year], readings) && !dryRun
      ensures r.Corrupt? ==>
                || !opens || !AllOpen(yearly[year], readings)
                || (!dryRun && SomeUnread(yearly[year], old(inbox), readings))
      ensures r.DryRun? ==> r.total == |Events(yearly[year].weeks)|
      ensures r.NotFound? || r.DryRun? || (r.Corrupt? && !(opens && AllOpen(yearly[year], readings))) ==>
                Now() == old(Now())
      ensures r.Corrupt? ==>
                && PartZips(zips, yearly[year])
                && Now() == old(Now()).(dirs := old(Dirs()).(inbox := ExtractedAll(old(inbox), zips, now)))
      ensures r.Ingested? ==> WholeZips(zips, yearly[year]) && Lists(listing, ExtractedAll(old(inbox), zips, now))
                              && Now() == Restored(old(Now()), zips, 0, listing, now, trouble)
      ensures r.Ingested? ==> && r.written == |NewNames(yearly[year], old(inbox))|
                              && r.written + r.skipped == |Events(yearly[year].weeks)|
    {
      listing, zips := [], [];
      if year !in yearly {
        return NotFound, listing, zips;
      }
      var zip := yearly[year];
      if !opens {
        return Corrupt, listing, zips;
      }
      var ok, weeks, events := ScanYearly(zip, readings);
      if !ok {
        return Corrupt, listing, zips;
      }
      if dryRun {
        return DryRun(events), listing, zips;
      }
      r, listing, zips := ReplayYear(zip, readings, now, trouble);
    }

    /** Copy members one by one; `upTo` of them are done when it stops. */
    method ExtractMembers(entries: Dir, members: seq<Name>, gives: Name -> bool, now: int)
      returns (ok: bool, written: nat, skipped: nat, ghost upTo: nat)
      requires Distinct(members) && forall i :: 0 <= i < |members| ==> members[i] in entries
      modifies this`inbox
      ensures upTo <= |members| && written + skipped == upTo && |inbox| == |old(inbox)| + written
      ensures inbox == CopyAll(old(inbox), entries, members[..upTo], now)
      ensures forall i :: 0 <= i < upTo ==> members[i] in old(inbox) || gives(members[i])
      ensures if ok then upTo == |members|
              else upTo < |members| && members[upTo] !in old(inbox) && !gives(members[upTo])
    {
      ghost var start := inbox;
      written, skipped := 0, 0;
      var k := 0;
      while k < |members|
        invariant 0 <= k <= |members| && written + skipped == k
        invariant inbox == CopyAll(start, entries, members[..k], now) && forall n :: n in start ==> n in inbox
        invariant |inbox| == |start| + written && forall n :: n in inbox ==> n in start || n in members[..k]
        invariant forall i :: 0 <= i < k ==> members[i] in start || gives(members[i])
      {
        assert members[..k + 1][..k] == members[..k] && members[k] !in members[..k];
        if members[k] !in inbox && !gives(members[k]) {
          return false, written, skipped, k;
        }
        var wrote := CopyToInbox(members[k], entries[members[k]], now);
        if wrote {
          written := written + 1;
        } else {
          skipped := skipped + 1;
        }
        k := k + 1;
      }
      ok, upTo := true, k;
    }
  }

  /** Members copied one by one, each unless its name is taken. */
  function CopyAll(inbox: Dir, entries: Dir, members: seq<Name>, now: int): Dir
    requires forall i :: 0 <= i < |members| ==> members[i] in entries
  {
    if members == [] then inbox
    else
      var n := members[|members| - 1];
      var copied := CopyAll(inbox, entries, members[..|members| - 1], now);
      if n in copied then copied else copied[n := File(entries[n].content, now)]
  }

  /** In whatever order they come, that is the extraction. */
  lemma {:induction false} CopyAllExtracts(inbox: Dir, entries: Dir, members: seq<Name>, now: int)
    requires forall i :: 0 <= i < |members| ==> members[i] in entries
    ensures CopyAll(inbox, entries, members, now) == Extracted(inbox, Only(entries, members), now)
  {
    if members != [] {
      var init, n := members[..|members| - 1], members[|members| - 1];
      CopyAllExtracts(inbox, entries, init, now);
      assert members == init + [n];
      CopyNext(inbox, entries, init, n, now);
    }
  }

  /** Extracting and then ingesting is restoring. */
  lemma RestoredIs(s: State, s1: State, s2: State, zips: seq<Dir>, listing: seq<Name>, now: int,
                   trouble: Name -> Trouble)
    requires s1 == s.(dirs := s.dirs.(inbox := ExtractedAll(s.dirs.inbox, zips, now)))
    requires s2 == Exec(s1, IngestRun(0, listing, trouble))
    ensures s2 == Restored(s, zips, 0, listing, now, trouble)
  {
  }

  lemma ExtractedNone(inbox: Dir, now: int)
    ensures Extracted(inbox, map[], now) == inbox
  {
  }

  lemma ExtractedOne(inbox: Dir, entries: Dir, now: int)
    ensures ExtractedAll(inbox, [entries], now) == Extracted(inbox, entries, now)
  {
    assert [entries][1..] == [];
    assert ExtractedAll(Extracted(inbox, entries, now), [], now) == Extracted(inbox, entries, now);
  }

  lemma CopyNext(inbox: Dir, entries: Dir, members: seq<Name>, n: Name, now: int)
    requires n in entries
    ensures var copied := Extracted(inbox, Only(entries, members), now);
            Extracted(inbox, Only(entries, members + [n]), now) == if n in copied then copied
            else copied[n := File(entries[n].content, now)]
  {
    OnlyLast(entries, members, n);
    var some := Only(entries, members);
    if n in some {
      assert some[n := entries[n]] == some;
    }
    ExtractedPut(inbox, some, n, entries[n], now);
  }

  lemma ExtractedPut(inbox: Dir, some: Dir, n: Name, file: File, now: int)
    requires n !in some || some[n] == file
    ensures var copied := Extracted(inbox, some, now);
            Extracted(inbox, some[n := file], now) == if n in copied then copied
            else copied[n := File(file.content, now)]
  {
  }

  lemma WholeYear(zip: YearZip, names: seq<int>)
    requires Distinct(names) && forall w :: w in names <==> w in zip.weeks
    ensures |names| == |zip.weeks| && Entries(zip, names[..|names|]) == |Events(zip.weeks)|
  {
    forall i | 0 <= i < |names| ensures names[i] in zip.weeks {
      var w: int := names[i];
      assert w in names;
    }
    EntriesCount(zip, names);
    assert names[..|names|] == names;
    var all := Only(zip.weeks, names);
    forall w: int ensures w in all <==> w in zip.weeks {
      assert w in zip.weeks <==> w in names;
    }
    assert all == zip.weeks;
    DistinctCount(names);
    forall w: int ensures w in zip.weeks.Keys <==> w in Names(names) {
      assert w in zip.weeks <==> w in names;
    }
    assert Names(names) == zip.weeks.Keys && |zip.weeks| == |zip.weeks.Keys|;
  }

  lemma AllMembers(entries: Dir, members: seq<Name>)
    requires Distinct(members) && forall n :: n in members <==> n in entries
    ensures Only(entries, members) == entries && |members| == |entries|
    ensures forall i :: 0 <= i < |members| ==> members[i] in entries
  {
    DistinctCount(members);
    assert |entries| == |entries.Keys|;
    assert Names(members) == entries.Keys;
  }

  lemma GatheredAre(weekly: map<int, WeekZip>, year: int, zips: seq<int>)
    requires Distinct(zips) && forall m :: m in zips <==> m in ZipsOf(weekly, year)
    ensures Only(weekly, zips) == ZipsOf(weekly, year) && |ZipsOf(weekly, year)| == |zips|
    ensures zips == [] <==> ZipsOf(weekly, year) == map[]
  {
    var gathered := Only(weekly, zips);
    assert gathered == ZipsOf(weekly, year);
    forall w: int ensures w in gathered.Keys <==> w in Names(zips) {
      assert w in gathered <==> w in zips;
    }
    assert gathered.Keys == Names(zips);
    assert |gathered| == |gathered.Keys|;
    DistinctCount(zips);
  }

  lemma GatheredIsYear(weekly: map<int, WeekZip>, year: int, zips: seq<int>, zip: YearZip)
    requires Distinct(zips) && forall m :: m in zips <==> m in ZipsOf(weekly, year)
    requires Plausible(zip.weeks, zip.intact, Only(weekly, zips)) && zip.intact && |zip.weeks| == |zips|
    ensures zip.weeks == ZipsOf(weekly, year)
  {
    GatheredAre(weekly, year, zips);
    VerifiedIsComplete(zip.weeks, Only(weekly, zips));
  }

  /** The candidates are the week's files. */
  lemma CandidatesAre(processed: Dir, midnight: int -> int, week: int, candidates: seq<Name>)
    requires Distinct(candidates) && forall n :: n in candidates <==> n in Selected(processed, midnight, week)
    ensures Only(processed, candidates) == Selected(processed, midnight, week)
    ensures |Selected(processed, midnight, week)| == |candidates|
    ensures candidates == [] <==> Selected(processed, midnight, week) == map[]
  {
    var built := Only(processed, candidates);
    assert built == Selected(processed, midnight, week);
    assert built.Keys == Names(candidates) && |built| == |built.Keys|;
    DistinctCount(candidates);
  }

  /** A verified zip holds exactly the week's files. */
  lemma SelectedIsBuilt(processed: Dir, midnight: int -> int, week: int, candidates: seq<Name>, zip: WeekZip)
    requires Distinct(candidates) && forall n :: n in candidates <==> n in Selected(processed, midnight, week)
    requires Plausible(zip.entries, zip.intact, Only(processed, candidates)) && zip.intact
             && |zip.entries| == |candidates|
    ensures zip.entries == Selected(processed, midnight, week)
  {
    CandidatesAre(processed, midnight, week, candidates);
    VerifiedIsComplete(zip.entries, Only(processed, candidates));
  }

  /** Archiving a week when nothing goes wrong. */
  lemma CalmWeek(y: Yard, y': Yard, midnight: int -> int, week: int, x: Storage, r: ArchiveResult)
    requires Calm(x) && r == WeekOutcome(y.processed, y.weekly, midnight, week, x) && y'.yearly == y.yearly
    requires !r.Bundled? ==> y'.processed == y.processed && y'.weekly == y.weekly
    requires r.Bundled? ==>
               var files := Selected(y.processed, midnight, week);
               && y'.weekly == y.weekly[week := WeekZip(files, true)]
               && y'.processed == y.processed - (set n | n in files && x.deletes(n))
    ensures y' == WeekBundled(y, midnight, week)
  {
    var files := Selected(y.processed, midnight, week);
    assert (set n | n in files && x.deletes(n)) == files.Keys;
  }

  /** Consolidating a year when nothing goes wrong. */
  lemma CalmOneYear(y: Yard, y': Yard, year: int, x: YearStorage, r: ArchiveResult)
    requires CalmYear(x) && r == YearOutcome(y.weekly, y.yearly, year, x) && y'.processed == y.processed
    requires !r.Bundled? ==> y'.weekly == y.weekly && y'.yearly == y.yearly
    requires r.Bundled? ==>
               var zips := ZipsOf(y.weekly, year);
               && y'.yearly == y.yearly[year := YearZip(zips, true)]
               && y'.weekly == y.weekly - (set m | m in zips && x.deletes(m))
    ensures y' == YearBundled(y, year)
  {
    var zips := ZipsOf(y.weekly, year);
    assert (set m | m in zips && x.deletes(m)) == zips.Keys;
  }
}

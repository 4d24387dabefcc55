/** Why "processed means recorded" needs one content per event id, and how a file gets stranded. */
module Counterexamples {
  import opened Documents
  import opened Rows
  import opened Spool
  import opened Outcomes
  import opened Turns

  function Fresh(reg: Registry): State {
    State(Dirs(map[], map[], map[], map[]), Archives(map[], map[]), EMPTY_TABLES, reg, map[], Idle, map[])
  }

  lemma ExecCons(s: State, a: Action, rest: seq<Action>)
    ensures Exec(s, [a] + rest) == Exec(Step(s, a), rest)
  {
    ExecConcat(s, [a], rest);
    ExecOne(s, a);
  }

  /** Run 0 has recorded the event and is about to move its file to processed/. */
  function AboutToFinish(s: State, n: Name, file: File, f: Fields, t: Tables): State {
    s.(dirs := s.dirs.(inbox := map[], processing := map[n := file]), tables := t,
    workers := map[0 := Worker([], Recorded(n, f), ZERO, 1)])
  }

  const WRITES: seq<Action> := [Ingest(0, WriteRaw(0, Fine))] + [Ingest(0, WriteCanonical(0, Fine))]

  const READ_ON: seq<Action> := [Ingest(0, Read(Fine))] + WRITES

  const CLAIM_ON: seq<Action> := [Ingest(0, Claim(Fine))] + READ_ON

  function FirstHalf(n: Name, file: File): seq<Action> {
    [Publish(n, file)] + ([Begin(0, [n])] + CLAIM_ON)
  }

  lemma ClaimFirst(s: State, n: Name, file: File)
    requires s.dirs == Dirs(map[n := file], map[], map[], map[]) && s.workers == map[]
    ensures Step(Step(s, Begin(0, [n])), Ingest(0, Claim(Fine)))
         == s.(dirs := Dirs(map[], map[n := file], map[], map[]), workers := map[0 := Worker([], Claimed(n), ZERO, 1)])
  {
    var s1 := Step(s, Begin(0, [n]));
    assert s1 == s.(workers := map[0 := Worker([n], Next, ZERO, 1)]);
    assert [n][1..] == [];
    assert map[n := file] - {n} == map[];
    assert s1.workers[0 := Worker([], Claimed(n), ZERO, 1)] == map[0 := Worker([], Claimed(n), ZERO, 1)];
  }

  lemma RecordFirst(s: State, n: Name, file: File, f: Fields)
    requires s.dirs == Dirs(map[], map[n := file], map[], map[])
             && s.workers == map[0 := Worker([], Claimed(n), ZERO, 1)]
    requires Classify(file.content) == Accepted(f)
    ensures Step(Step(Step(s, Ingest(0, Read(Fine))), Ingest(0, WriteRaw(0, Fine))), Ingest(0, WriteCanonical(0, Fine)))
         == AboutToFinish(s, n, file, f, InsertCanonical(InsertRaw(s.tables, f, 0), s.reg, f, 0))
  {
  }

  lemma FirstHalfRuns(reg: Registry, n: Name, file: File, f: Fields)
    requires Classify(file.content) == Accepted(f)
    ensures Exec(Fresh(reg), FirstHalf(n, file))
         == AboutToFinish(Fresh(reg), n, file, f, InsertCanonical(InsertRaw(EMPTY_TABLES, f, 0), reg, f, 0))
  {
    var s := Fresh(reg);
    var s1 := Step(s, Publish(n, file));
    var s2 := Step(s1, Begin(0, [n]));
    var s3 := Step(s2, Ingest(0, Claim(Fine)));
    var s4 := Step(s3, Ingest(0, Read(Fine)));
    var s5 := Step(s4, Ingest(0, WriteRaw(0, Fine)));
    ClaimFirst(s1, n, file);
    RecordFirst(s3, n, file, f);
    ExecOne(s5, Ingest(0, WriteCanonical(0, Fine)));
    ExecCons(s4, Ingest(0, WriteRaw(0, Fine)), [Ingest(0, WriteCanonical(0, Fine))]);
    ExecCons(s3, Ingest(0, Read(Fine)), WRITES);
    ExecCons(s2, Ingest(0, Claim(Fine)), READ_ON);
    ExecCons(s1, Begin(0, [n]), CLAIM_ON);
    ExecCons(s, Publish(n, file), [Begin(0, [n])] + CLAIM_ON);
  }

  function SecondHalf(n: Name, file: File): seq<Action> {
    [Publish(n, file)] + ([Begin(1, [n])] + ([Ingest(1, Claim(Fine))] + [Ingest(0, Finish(Fine))]))
  }

  /** A second run claims the new file over the old one, and the first run moves it on. */
  lemma SecondHalfRuns(s: State, n: Name, file: File, f: Fields, earlier: File, t: Tables)
    ensures var s' := Exec(AboutToFinish(s, n, earlier, f, t), SecondHalf(n, file));
            n in s'.dirs.processed && s'.dirs.processed[n] == file && s'.tables == t
  {
    var s0 := AboutToFinish(s, n, earlier, f, t);
    var s1 := Step(s0, Publish(n, file));
    var s2 := Step(s1, Begin(1, [n]));
    assert s2.workers[1] == Worker([n], Next, ZERO, 1) && s2.workers[0] == Worker([], Recorded(n, f), ZERO, 1);
    var s3 := Step(s2, Ingest(1, Claim(Fine)));
    assert s3.dirs.processing[n] == file && s3.workers[0] == Worker([], Recorded(n, f), ZERO, 1) && s3.tables == t;
    ExecOne(s3, Ingest(0, Finish(Fine)));
    ExecCons(s2, Ingest(1, Claim(Fine)), [Ingest(0, Finish(Fine))]);
    ExecCons(s1, Begin(1, [n]), [Ingest(1, Claim(Fine))] + [Ingest(0, Finish(Fine))]);
    ExecCons(s0, Publish(n, file), [Begin(1, [n])] + ([Ingest(1, Claim(Fine))] + [Ingest(0, Finish(Fine))]));
  }

  /** Two contents under one id break "processed means recorded": for every pair of events with the
      same id, the first raw-only and the second routed to the business table, there is a run that
      ends with the second in processed/ and no business row. */
  lemma TwoContentsPerId(reg: Registry, n: Name, first: File, second: File, f: Fields, g: Fields)
    requires Classify(first.content) == Accepted(f) && RawOnly(reg, f)
    requires Classify(second.content) == Accepted(g) && Routes(reg, Get(g, EventType)).business
    ensures exists run :: var s := Exec(Fresh(reg), run);
                          n in s.dirs.processed && s.dirs.processed[n] == second && n !in s.tables.business
  {
    var run := FirstHalf(n, first) + SecondHalf(n, second);
    var t := InsertCanonical(InsertRaw(EMPTY_TABLES, f, 0), reg, f, 0);
    ExecConcat(Fresh(reg), FirstHalf(n, first), SecondHalf(n, second));
    FirstHalfRuns(reg, n, first, f);
    SecondHalfRuns(Fresh(reg), n, second, f, first, t);
    assert n !in t.business;
  }

  /** The run that strands an event: it is published, and the one ingest run meets an error of the
      canonical write. */
  function StrandingRun(n: Name, file: File): seq<Action> {
    [Publish(n, file)] + IngestRun(0, [n], _ => CALM.(canonical := Broken))
  }

  /** From a fresh root, every accepted event that is routed to a canonical table can be stranded, with
      its raw row written and nothing in the canonical tables. */
  lemma FreshRootStrands(reg: Registry, n: Name, file: File, f: Fields)
    requires Classify(file.content) == Accepted(f) && !RawOnly(reg, f)
    ensures var s := Exec(Fresh(reg), StrandingRun(n, file));
            && Stranded(s, n) && s.dirs.processing[n] == file
            && s.tables == InsertRaw(EMPTY_TABLES, f, 0)
  {
    var trouble: Name -> Trouble := _ => CALM.(canonical := Broken);
    var s1 := Step(Fresh(reg), Publish(n, file));
    ExecCons(Fresh(reg), Publish(n, file), IngestRun(0, [n], trouble));
    IngestIsARun(s1, 0, [n], trouble);
    OneTurn(Shelf(s1.dirs, s1.tables, ZERO), reg, n, trouble);
  }

  lemma OneTurn(h: Shelf, reg: Registry, n: Name, trouble: Name -> Trouble)
    ensures TurnAll(h, reg, [n], trouble) == Turn(h, reg, n, trouble(n))
  {
    assert [n][..0] == [];
    assert TurnAll(h, reg, [], trouble) == h;
  }
}

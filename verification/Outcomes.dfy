/** One ingest run seen file by file: where each file ends up, what is counted, and which files are
    never looked at again. */
module Outcomes {
  import opened Documents
  import opened Rows
  import opened Spool

  /** What the environment does to one file's turn: a fault per call, and whether the two rename
      fallbacks (back to spool/, into failed/) succeed. */
  datatype Trouble = Trouble(claim: Fault, read: Fault, raw: Fault, canonical: Fault, finish: Fault,
                             putBack: bool, move: bool, now: int)

  const CALM := Trouble(Fine, Fine, Fine, Fine, Fine, true, true, 0)

  /** One turn of the loop, run without interruption.  Actions that do not apply do nothing. */
  function Round(w: nat, x: Trouble): seq<Action> {
    ClaimAndRead(w, x) + Raw(w, x) + Canonical(w, x) + Fallback(w, x)
  }

  function ClaimAndRead(w: nat, x: Trouble): seq<Action> { [Ingest(w, Claim(x.claim)), Ingest(w, Read(x.read))] }

  function Raw(w: nat, x: Trouble): seq<Action> { [Ingest(w, WriteRaw(x.now, x.raw)), Ingest(w, PutBack(x.putBack))] }

  function Canonical(w: nat, x: Trouble): seq<Action> {
    [Ingest(w, WriteCanonical(x.now, x.canonical)), Ingest(w, Finish(x.finish))]
  }

  function Fallback(w: nat, x: Trouble): seq<Action> { [Ingest(w, FailMove(x.move)), Ingest(w, OuterMove(x.move))] }

  lemma ExecTwo(s: State, a: Action, b: Action)
    ensures Exec(s, [a, b]) == Step(Step(s, a), b)
  {
    assert [a] + [b] == [a, b];
    ExecNext(s, [a], b);
    ExecOne(s, a);
  }

  lemma RoundSplits(s: State, w: nat, x: Trouble)
    ensures Exec(s, Round(w, x))
         == Exec(Exec(Exec(Exec(s, ClaimAndRead(w, x)), Raw(w, x)), Canonical(w, x)), Fallback(w, x))
  {
    var a, b, c, d := ClaimAndRead(w, x), Raw(w, x), Canonical(w, x), Fallback(w, x);
    ExecConcat(s, a + b + c, d);
    ExecConcat(s, a + b, c);
    ExecConcat(s, a, b);
  }

  /** Which action moves a run on from where it stands. */
  predicate Applies(pc: Pc, m: IngestMove) {
    match pc
    case Next => m.Claim?
    case Claimed(_) => m.Read?
    case Parsed(_, _) => m.WriteRaw?
    case RawFailed(_, _) => m.PutBack?
    case RawDone(_, _) => m.WriteCanonical?
    case Recorded(_, _) => m.Finish?
    case Failing(_) => m.FailMove?
    case Outer(_) => m.OuterMove?
  }

  lemma NotApplicable(s: State, a: Action)
    requires a.Ingest? && a.w in s.workers && !Applies(s.workers[a.w].pc, a.ingest)
    ensures Step(s, a) == s
  {
  }

  // ---------------------------------------------------------------- exact outcome

  datatype Place = InInbox | InProcessing | InProcessed | InFailed

  datatype Count = CountProcessed | CountFailed | CountSkipped | CountLocked

  /** Where a claimed file ends up.  It stays in processing/ when an exception escapes after the
      claim anywhere but in the raw write, or when a fallback rename itself fails. */
  function Destination(v: Verdict, reg: Registry, x: Trouble): Place {
    if x.read != Fine || v.Unparsed? || v.Rejected? then (if x.move then InFailed else InProcessing)
    else if v.Escapes? then InProcessing
    else if x.raw != Fine then
      if !x.putBack then InProcessing
      else if x.raw == Broken && x.move then InFailed
      else InInbox
    else if x.canonical != Fine && !RawOnly(reg, v.fields) then InProcessing
    else if x.finish != Fine then InProcessing
    else InProcessed
  }

  /** Which counter the file adds one to. */
  function Counted(v: Verdict, reg: Registry, x: Trouble): Count {
    if x.read != Fine || !v.Accepted? then CountFailed
    else if x.raw != Fine then CountFault(x.raw)
    else if x.canonical != Fine && !RawOnly(reg, v.fields) then CountFault(x.canonical)
    else if x.finish != Fine then CountFailed
    else CountProcessed
  }

  function CountFault(f: Fault): Count {
    if f == Locked then CountLocked else if f == Gone then CountSkipped else CountFailed
  }

  function Add(c: Counters, k: Count): Counters {
    match k
    case CountProcessed => Processed(c)
    case CountFailed => Failed(c)
    case CountSkipped => Skip(c, false)
    case CountLocked => Skip(c, true)
  }

  /** The directories after a file that was in spool/ has been put in a place. */
  function Placed(d: Dirs, n: Name, p: Place): Dirs
    requires n in d.inbox
  {
    var file := d.inbox[n];
    match p
    case InInbox => d.(processing := d.processing - {n})
    case InProcessing => ToProcessing(d, n)
    case InProcessed => d.(inbox := d.inbox - {n}, processing := d.processing - {n},
    processed := d.processed[n := file])
    case InFailed => d.(inbox := d.inbox - {n}, processing := d.processing - {n}, failed := d.failed[n := file])
  }

  /** What the tables gain. */
  function Tabled(t: Tables, v: Verdict, reg: Registry, x: Trouble): Tables {
    if x.read != Fine || !v.Accepted? || x.raw != Fine then t
    else
      var t' := InsertRaw(t, v.fields, x.now);
      if x.canonical != Fine && !RawOnly(reg, v.fields) then t'
      else InsertCanonical(t', reg, v.fields, x.now)
  }

  predicate Ready(s: State, w: nat) {
    w in s.workers && s.workers[w].pc.Next? && s.workers[w].todo != []
  }

  // Each part of a turn in closed form.

  function AfterClaim(s: State, w: nat, x: Trouble, n: Name): State
    requires w in s.workers && s.workers[w].todo != [] && n in s.dirs.inbox
  {
    var wk := s.workers[w].(todo := s.workers[w].todo[1..], pc := Claimed(n));
    SetWorker(s.(dirs := ToProcessing(s.dirs, n)), w,
              AfterRead(wk, n, if x.read != Fine then Unparsed else Classify(s.dirs.inbox[n].content)))
  }

  function AfterRaw(s: State, w: nat, x: Trouble): State
    requires w in s.workers
  {
    var wk := s.workers[w];
    if !wk.pc.Parsed? then s
    else if x.raw == Fine then
      SetWorker(s.(tables := InsertRaw(s.tables, wk.pc.fields, x.now)), w, wk.(pc := RawDone(wk.pc.name, wk.pc.fields)))
    else
      var n := wk.pc.name;
      var d := if x.putBack && n in s.dirs.processing then BackToInbox(s.dirs, n) else s.dirs;
      SetWorker(s.(dirs := d), w, Raise(wk, n, x.raw))
  }

  predicate CanonicalFails(reg: Registry, f: Fields, x: Trouble) {
    x.canonical != Fine && !RawOnly(reg, f)
  }

  function AfterCanonical(s: State, w: nat, x: Trouble): State
    requires w in s.workers
  {
    var wk := s.workers[w];
    if !wk.pc.RawDone? then s
    else if CanonicalFails(s.reg, wk.pc.fields, x) then SetWorker(s, w, Raise(wk, wk.pc.name, x.canonical))
    else
      var n := wk.pc.name;
      var s' := s.(tables := InsertCanonical(s.tables, s.reg, wk.pc.fields, x.now));
      if x.finish == Fine && n in s.dirs.processing then
        SetWorker(s'.(dirs := ToProcessed(s.dirs, n)), w, wk.(pc := Next, result := Processed(wk.result)))
      else
        SetWorker(s', w, Raise(wk, n, if n !in s.dirs.processing then Gone else Broken))
  }

  function AfterFallback(s: State, w: nat, x: Trouble): State
    requires w in s.workers
  {
    if s.workers[w].pc.Failing? then StepFailMove(s, w, x.move)
    else if s.workers[w].pc.Outer? then StepOuterMove(s, w, x.move) else s
  }

  lemma ReadPart(s: State, w: nat, x: Trouble, n: Name)
    requires Ready(s, w) && n == s.workers[w].todo[0] && n in s.dirs.inbox && x.claim == Fine
    ensures Exec(s, ClaimAndRead(w, x)) == AfterClaim(s, w, x, n)
  {
    ExecTwo(s, Ingest(w, Claim(x.claim)), Ingest(w, Read(x.read)));
    var wk := s.workers[w].(todo := s.workers[w].todo[1..], pc := Claimed(n));
    var s1 := SetWorker(s.(dirs := ToProcessing(s.dirs, n)), w, wk);
    assert Step(s, Ingest(w, Claim(x.claim))) == s1;
  }

  lemma SetTwice(s: State, w: nat, a: Worker, b: Worker)
    ensures SetWorker(SetWorker(s, w, a), w, b) == SetWorker(s, w, b)
  {
    assert s.workers[w := a][w := b] == s.workers[w := b];
  }

  lemma RawPart(s: State, w: nat, x: Trouble)
    requires w in s.workers && !s.workers[w].pc.Claimed? && !s.workers[w].pc.RawFailed?
    ensures Exec(s, Raw(w, x)) == AfterRaw(s, w, x)
  {
    var a, b := Ingest(w, WriteRaw(x.now, x.raw)), Ingest(w, PutBack(x.putBack));
    ExecTwo(s, a, b);
    if !s.workers[w].pc.Parsed? {
      NotApplicable(s, a);
      NotApplicable(s, b);
    } else if x.raw == Fine {
      NotApplicable(Step(s, a), b);
    } else {
      RawFault(s, w, x);
    }
  }

  lemma RawFault(s: State, w: nat, x: Trouble)
    requires w in s.workers && s.workers[w].pc.Parsed? && x.raw != Fine
    ensures StepPutBack(StepWriteRaw(s, w, x.now, x.raw), w, x.putBack) == AfterRaw(s, w, x)
  {
    var wk := s.workers[w];
    SetTwice(s, w, wk.(pc := RawFailed(wk.pc.name, x.raw)), Raise(wk, wk.pc.name, x.raw));
  }

  lemma CanonicalPart(s: State, w: nat, x: Trouble)
    requires w in s.workers && !s.workers[w].pc.Recorded?
    ensures Exec(s, Canonical(w, x)) == AfterCanonical(s, w, x)
  {
    var a, b := Ingest(w, WriteCanonical(x.now, x.canonical)), Ingest(w, Finish(x.finish));
    ExecTwo(s, a, b);
    if !s.workers[w].pc.RawDone? {
      NotApplicable(s, a);
      NotApplicable(s, b);
    } else if CanonicalFails(s.reg, s.workers[w].pc.fields, x) {
      NotApplicable(Step(s, a), b);
    } else {
      CanonicalFine(s, w, x);
    }
  }

  lemma CanonicalFine(s: State, w: nat, x: Trouble)
    requires w in s.workers && s.workers[w].pc.RawDone? && !CanonicalFails(s.reg, s.workers[w].pc.fields, x)
    ensures StepFinish(StepWriteCanonical(s, w, x.now, x.canonical), w, x.finish) == AfterCanonical(s, w, x)
  {
  }

  lemma FallbackPart(s: State, w: nat, x: Trouble)
    requires w in s.workers
    ensures Exec(s, Fallback(w, x)) == AfterFallback(s, w, x)
  {
    var a, b := Ingest(w, FailMove(x.move)), Ingest(w, OuterMove(x.move));
    ExecTwo(s, a, b);
    if s.workers[w].pc.Failing? {
      NotApplicable(Step(s, a), b);
    } else {
      NotApplicable(s, a);
      if !s.workers[w].pc.Outer? {
        NotApplicable(s, b);
      }
    }
  }

  /** The parts of a turn after the claim and the read, in closed form. */
  function AfterAll(s: State, w: nat, x: Trouble): State
    requires w in s.workers
  {
    AfterFallback(AfterCanonical(AfterRaw(s, w, x), w, x), w, x)
  }

  predicate SettledAfterRead(pc: Pc) {
    pc.Next? || pc.Parsed? || pc.Failing? || pc.Outer?
  }

  lemma RestOfTurn(s: State, w: nat, x: Trouble)
    requires w in s.workers && SettledAfterRead(s.workers[w].pc)
    ensures Exec(Exec(Exec(s, Raw(w, x)), Canonical(w, x)), Fallback(w, x)) == AfterAll(s, w, x)
  {
    RawPart(s, w, x);
    var s1 := AfterRaw(s, w, x);
    assert !s1.workers[w].pc.Recorded?;
    CanonicalPart(s1, w, x);
    FallbackPart(AfterCanonical(s1, w, x), w, x);
  }

  /** Where the file is after the renames a turn can make. */
  lemma RenamesPlace(d: Dirs, n: Name)
    requires n in d.inbox
    ensures var p := ToProcessing(d, n);
            && BackToInbox(p, n) == Placed(d, n, InInbox)
            && ToProcessed(p, n) == Placed(d, n, InProcessed)
            && ProcessingToFailed(p, n) == Placed(d, n, InFailed)
            && InboxToFailed(Placed(d, n, InInbox), n) == Placed(d, n, InFailed)
  {
  }

  /** The state after the rest of a turn. */
  function Ended(s: State, w: nat, wk: Worker, d: Dirs, t: Tables, k: Count): State {
    s.(dirs := d, tables := t, workers := s.workers[w := wk.(pc := Next, result := Add(wk.result, k))])
  }

  lemma UnreadableTurn(s: State, w: nat, x: Trouble, d: Dirs, n: Name, v: Verdict, wk: Worker)
    requires n in d.inbox && w in s.workers && s.dirs == ToProcessing(d, n) && !v.Accepted?
    requires s.workers[w] == AfterRead(wk, n, v) && (x.read == Fine || v.Unparsed?)
    ensures AfterAll(s, w, x) == Ended(s, w, wk, Placed(d, n, Destination(v, s.reg, x)), s.tables, CountFailed)
  {
    RenamesPlace(d, n);
  }

  lemma RawErrorTurn(s: State, w: nat, x: Trouble, d: Dirs, n: Name, f: Fields, wk: Worker)
    requires n in d.inbox && w in s.workers && s.dirs == ToProcessing(d, n)
    requires s.workers[w] == wk.(pc := Parsed(n, f)) && x.raw != Fine && x.read == Fine
    ensures AfterAll(s, w, x)
         == Ended(s, w, wk, Placed(d, n, Destination(Accepted(f), s.reg, x)), s.tables, CountFault(x.raw))
  {
    RenamesPlace(d, n);
  }

  lemma RecordedTurn(s: State, w: nat, x: Trouble, d: Dirs, n: Name, f: Fields, wk: Worker)
    requires n in d.inbox && w in s.workers && s.dirs == ToProcessing(d, n)
    requires s.workers[w] == wk.(pc := Parsed(n, f)) && x.raw == Fine && x.read == Fine
    ensures AfterAll(s, w, x)
         == Ended(s, w, wk, Placed(d, n, Destination(Accepted(f), s.reg, x)), Tabled(s.tables, Accepted(f), s.reg, x),
                  Counted(Accepted(f), s.reg, x))
  {
    var t := InsertRaw(s.tables, f, x.now);
    var held := wk.(pc := RawDone(n, f));
    var s1 := s.(tables := t);
    assert AfterRaw(s, w, x) == SetWorker(s1, w, held);
    if CanonicalFails(s.reg, f, x) {
      SetTwice(s1, w, held, Raise(held, n, x.canonical));
      FallbackSettles(s1, w, x, held, n, x.canonical);
    } else {
      var s2 := s.(tables := InsertCanonical(t, s.reg, f, x.now));
      if x.finish == Fine {
        RenamesPlace(d, n);
        SetTwice(s2.(dirs := ToProcessed(s.dirs, n)), w, held, held.(pc := Next, result := Processed(wk.result)));
      } else {
        SetTwice(s2, w, held, Raise(held, n, Broken));
        FallbackSettles(s2, w, x, held, n, Broken);
      }
    }
  }

  /** An exception that reaches the handlers while the file is out of spool/ moves nothing. */
  lemma FallbackSettles(s: State, w: nat, x: Trouble, wk: Worker, n: Name, fault: Fault)
    requires fault != Fine && n !in s.dirs.inbox
    ensures AfterFallback(SetWorker(s, w, Raise(wk, n, fault)), w, x)
         == SetWorker(s, w, wk.(pc := Next, result := Add(wk.result, CountFault(fault))))
  {
    SetTwice(s, w, Raise(wk, n, fault), wk.(pc := Next, result := Failed(wk.result)));
  }

  lemma TurnOutcome(s: State, w: nat, x: Trouble, d: Dirs, n: Name, v: Verdict, wk: Worker)
    requires n in d.inbox && w in s.workers && s.dirs == ToProcessing(d, n)
    requires s.workers[w] == AfterRead(wk, n, v) && (x.read == Fine || v.Unparsed?)
    ensures AfterAll(s, w, x)
         == Ended(s, w, wk, Placed(d, n, Destination(v, s.reg, x)), Tabled(s.tables, v, s.reg, x), Counted(v, s.reg, x))
  {
    if !v.Accepted? {
      UnreadableTurn(s, w, x, d, n, v, wk);
    } else if x.raw != Fine {
      RawErrorTurn(s, w, x, d, n, v.fields, wk);
    } else {
      RecordedTurn(s, w, x, d, n, v.fields, wk);
    }
  }

  /** The end of a turn does not remember the states in between. */
  lemma EndedForgets(s: State, d0: Dirs, w: nat, a: Worker, wk: Worker, d: Dirs, t: Tables, k: Count)
    ensures Ended(SetWorker(s.(dirs := d0), w, a), w, wk, d, t, k) == Ended(s, w, wk, d, t, k)
  {
    SetTwice(s.(dirs := d, tables := t), w, a, wk.(pc := Next, result := Add(wk.result, k)));
  }

  lemma RoundFrom(s: State, w: nat, x: Trouble, s1: State)
    requires Exec(s, ClaimAndRead(w, x)) == s1 && w in s1.workers && SettledAfterRead(s1.workers[w].pc)
    ensures Exec(s, Round(w, x)) == AfterAll(s1, w, x)
  {
    RoundSplits(s, w, x);
    RestOfTurn(s1, w, x);
  }

  lemma ClaimedRound(s: State, w: nat, x: Trouble, n: Name)
    requires Ready(s, w) && s.workers[w].todo[0] == n && n in s.dirs.inbox && x.claim == Fine
    ensures Exec(s, Round(w, x)) == AfterAll(AfterClaim(s, w, x, n), w, x)
  {
    ReadPart(s, w, x, n);
    RoundFrom(s, w, x, AfterClaim(s, w, x, n));
  }

  lemma RefusedClaim(s: State, w: nat, x: Trouble, n: Name, s1: State)
    requires Ready(s, w) && s.workers[w].todo[0] == n && (n !in s.dirs.inbox || x.claim != Fine)
    requires var wk := s.workers[w].(todo := s.workers[w].todo[1..]);
             s1 == SetWorker(s, w, Raise(wk, n, if n !in s.dirs.inbox then Gone else Broken))
    ensures Exec(s, ClaimAndRead(w, x)) == s1
  {
    ExecTwo(s, Ingest(w, Claim(x.claim)), Ingest(w, Read(x.read)));
    assert Step(s, Ingest(w, Claim(x.claim))) == s1;
    NotApplicable(s1, Ingest(w, Read(x.read)));
  }

  lemma RefusedRound(s: State, w: nat, x: Trouble, n: Name, s1: State)
    requires Ready(s, w) && s.workers[w].todo[0] == n && (n !in s.dirs.inbox || x.claim != Fine)
    requires var wk := s.workers[w].(todo := s.workers[w].todo[1..]);
             s1 == SetWorker(s, w, Raise(wk, n, if n !in s.dirs.inbox then Gone else Broken))
    ensures Exec(s, Round(w, x)) == AfterAll(s1, w, x)
  {
    RefusedClaim(s, w, x, n, s1);
    RoundFrom(s, w, x, s1);
  }

  /** Exact outcome of one file's turn, for every content and every combination of faults: the whole
      state after it.  In words: processed/ on success; failed/ on a parse error, a missing field, a
      malformed skill id or a raw error other than a lock; spool/ on a lock during the raw write;
      processing/ when the exception escapes anywhere else after the claim. */
  lemma ExactOutcome(s: State, w: nat, x: Trouble, n: Name)
    requires Ready(s, w) && s.workers[w].todo[0] == n && n in s.dirs.inbox && x.claim == Fine
    ensures var wk, v := s.workers[w], Classify(s.dirs.inbox[n].content);
            Exec(s, Round(w, x)) == Ended(s, w, wk.(todo := wk.todo[1..]), Placed(s.dirs, n, Destination(v, s.reg, x)),
                                          Tabled(s.tables, v, s.reg, x), Counted(v, s.reg, x))
  {
    var wk := s.workers[w].(todo := s.workers[w].todo[1..], pc := Claimed(n));
    var v := if x.read != Fine then Unparsed else Classify(s.dirs.inbox[n].content);
    var s1 := AfterClaim(s, w, x, n);
    ClaimedRound(s, w, x, n);
    TurnOutcome(s1, w, x, s.dirs, n, v, wk);
    EndedForgets(s, ToProcessing(s.dirs, n), w, AfterRead(wk, n, v), wk,
                 Placed(s.dirs, n, Destination(v, s.reg, x)), Tabled(s.tables, v, s.reg, x), Counted(v, s.reg, x));
  }

  /** The other two ways a turn can go: the file is gone (another run claimed it), which only adds
      to skipped; or the claim itself fails, and the file goes straight to failed/. */
  lemma ClaimOutcome(s: State, w: nat, x: Trouble, n: Name)
    requires Ready(s, w) && s.workers[w].todo[0] == n && (n !in s.dirs.inbox || x.claim != Fine)
    ensures var wk := s.workers[w];
            Exec(s, Round(w, x)) == Ended(s, w, wk.(todo := wk.todo[1..]),
                                          if n in s.dirs.inbox && x.move then InboxToFailed(s.dirs, n) else s.dirs,
                                          s.tables, if n in s.dirs.inbox then CountFailed else CountSkipped)
  {
    var wk := s.workers[w].(todo := s.workers[w].todo[1..]);
    var fault := if n !in s.dirs.inbox then Gone else Broken;
    var s1 := SetWorker(s, w, Raise(wk, n, fault));
    RefusedRound(s, w, x, n, s1);
    RefusedTurn(s, w, x, wk, n, fault);
  }

  lemma RefusedTurn(s: State, w: nat, x: Trouble, wk: Worker, n: Name, fault: Fault)
    requires fault == if n !in s.dirs.inbox then Gone else Broken
    ensures AfterAll(SetWorker(s, w, Raise(wk, n, fault)), w, x)
         == Ended(s, w, wk, if n in s.dirs.inbox && x.move then InboxToFailed(s.dirs, n)
                  else s.dirs, s.tables, CountFault(fault))
  {
    SetTwice(s, w, Raise(wk, n, fault), wk.(pc := Next, result := Failed(wk.result)));
  }

  // ---------------------------------------------------------------- accounting

  /** Every listed file is counted once, still to come, or in hand. */
  predicate Accounted(wk: Worker) {
    wk.result.processed + wk.result.failed + wk.result.skipped + |wk.todo| + (if wk.pc.Next? then 0 else 1) == wk.listed
  }

  ghost predicate AllAccounted(s: State) {
    forall w :: w in s.workers ==> Accounted(s.workers[w])
  }

  lemma IngestTouchesOneWorker(s: State, w: nat, m: IngestMove)
    requires w in s.workers
    ensures var s' := StepIngest(s, w, m); w in s'.workers && s'.workers == s.workers[w := s'.workers[w]]
  {
  }

  lemma IngestAccounts(s: State, w: nat, m: IngestMove)
    requires w in s.workers && Accounted(s.workers[w])
    ensures var s' := StepIngest(s, w, m); w in s'.workers && Accounted(s'.workers[w])
  {
    match m
    case Claim(fault) =>
    case Read(fault) =>
    case WriteRaw(now, fault) =>
    case PutBack(ok) =>
    case WriteCanonical(now, fault) =>
    case Finish(fault) =>
    case FailMove(ok) =>
    case OuterMove(ok) =>
  }

  lemma StepAccounts(s: State, a: Action)
    requires AllAccounted(s)
    ensures AllAccounted(Step(s, a))
  {
    if a.Ingest? {
      if a.w in s.workers {
        IngestTouchesOneWorker(s, a.w, a.ingest);
        IngestAccounts(s, a.w, a.ingest);
      }
    } else if !a.Begin? && !a.Die? {
      assert Step(s, a).workers == s.workers;
    }
  }

  /** For every mix of outcomes, faults and rival runs, an ingest run that gets through its listing
      has counted each listed file exactly once. */
  lemma {:induction false} EveryFileCountedOnce(s: State, run: seq<Action>)
    requires AllAccounted(s)
    ensures AllAccounted(Exec(s, run))
    ensures forall w :: w in Exec(s, run).workers ==>
                          var wk := Exec(s, run).workers[w];
                          wk.todo == [] && wk.pc.Next?
                          ==> wk.result.processed + wk.result.failed + wk.result.skipped == wk.listed
    decreases |run|
  {
    if run != [] {
      EveryFileCountedOnce(s, run[..|run| - 1]);
      StepAccounts(Exec(s, run[..|run| - 1]), run[|run| - 1]);
    }
    forall w | w in Exec(s, run).workers ensures Accounted(Exec(s, run).workers[w]) {}
  }

  // ---------------------------------------------------------------- stranded files

  predicate Holds(pc: Pc, n: Name) {
    !pc.Next? && pc.name == n
  }

  /** A file in processing/ that no run has in hand and whose name is not in spool/. */
  ghost predicate Stranded(s: State, n: Name) {
    && n in s.dirs.processing && n !in s.dirs.inbox
    && forall w :: w in s.workers ==> !Holds(s.workers[w].pc, n)
  }

  /** What leaves a claimed file behind in processing/: a document the checks choke on, an error of the
      canonical write or of the last rename, or a fallback rename that fails itself. */
  predicate LeavesBehind(v: Verdict, reg: Registry, x: Trouble) {
    if x.read != Fine || v.Unparsed? || v.Rejected? then !x.move
    else if v.Escapes? then true
    else if x.raw != Fine then !x.putBack
    else (x.canonical != Fine && !ForNoTable(reg, v.fields)) || x.finish != Fine
  }

  /** The event's type is registered for neither canonical table. */
  predicate ForNoTable(reg: Registry, f: Fields) {
    && EventType in f && f[EventType].Str? && f[EventType].s in reg
    && !reg[f[EventType].s].business && !reg[f[EventType].s].ai
  }

  /** No run but w has the name in hand. */
  ghost predicate OnlyRun(s: State, w: nat, n: Name) {
    forall u :: u in s.workers && u != w ==> !Holds(s.workers[u].pc, n)
  }

  /** The intended outcome, that a claimed file ends in processed/, in failed/ or back in spool/, fails
      exactly when something leaves it behind; then it is stranded, unless another run holds its name. */
  lemma IntendedOutcome(s: State, w: nat, x: Trouble, n: Name)
    requires Ready(s, w) && s.workers[w].todo[0] == n && n in s.dirs.inbox && x.claim == Fine
    ensures var s' := Exec(s, Round(w, x));
            && (n in s'.dirs.processing <==> LeavesBehind(Classify(s.dirs.inbox[n].content), s.reg, x))
            && (n in s'.dirs.processing && OnlyRun(s, w, n) ==> Stranded(s', n))
  {
    ExactOutcome(s, w, x, n);
  }

  /** An accepted file whose raw write fails is put back; it stays in spool/ exactly when the error is
      a lock or a missing file, and any other error, a refusal to create the database among them, takes
      it on to failed/. */
  lemma RawFailureOutcome(s: State, w: nat, x: Trouble, n: Name)
    requires Ready(s, w) && s.workers[w].todo[0] == n && n in s.dirs.inbox && x.claim == Fine && x.read == Fine
    requires Classify(s.dirs.inbox[n].content).Accepted? && x.raw != Fine && x.putBack && x.move
    ensures var s' := Exec(s, Round(w, x));
            && (n in s'.dirs.inbox <==> x.raw == Locked || x.raw == Gone)
            && (n !in s'.dirs.inbox ==> n in s'.dirs.failed && s'.dirs.failed[n] == s.dirs.inbox[n])
            && s'.tables == s.tables
  {
    ExactOutcome(s, w, x, n);
  }

  /** The two ways a name comes back to spool/. */
  predicate Republishes(a: Action, n: Name) {
    (a.Publish? && a.name == n) || (a.Restore? && a.restore.RestoreCopy? && a.restore.name == n)
  }

  lemma IngestStrands(s: State, w: nat, m: IngestMove, n: Name)
    requires w in s.workers && Stranded(s, n)
    ensures var s' := StepIngest(s, w, m); Stranded(s', n) && s'.dirs.processing[n] == s.dirs.processing[n]
  {
    var s' := StepIngest(s, w, m);
    var pc := s.workers[w].pc;
    assert !Holds(pc, n);
    assert s'.workers == s.workers[w := s'.workers[w]] by { IngestTouchesOneWorker(s, w, m); }
    match m
    case Claim(fault) =>
    case Read(fault) =>
    case WriteRaw(now, fault) =>
    case PutBack(ok) =>
    case WriteCanonical(now, fault) =>
    case Finish(fault) =>
    case FailMove(ok) =>
    case OuterMove(ok) =>
  }

  lemma StepStrands(s: State, a: Action, n: Name)
    requires Stranded(s, n) && !Republishes(a, n)
    ensures Stranded(Step(s, a), n) && Step(s, a).dirs.processing[n] == s.dirs.processing[n]
  {
    if a.Ingest? {
      if a.w in s.workers {
        IngestStrands(s, a.w, a.ingest, n);
      }
    } else if !a.Begin? && !a.Die? {
      assert Step(s, a).workers == s.workers;
    }
  }

  /** A file left in processing/ is never picked up again, and never changes, unless its name
      reappears in spool/. */
  lemma {:induction false} StrandedForGood(s: State, run: seq<Action>, n: Name)
    requires Stranded(s, n) && forall i :: 0 <= i < |run| ==> !Republishes(run[i], n)
    ensures Stranded(Exec(s, run), n) && Exec(s, run).dirs.processing[n] == s.dirs.processing[n]
    decreases |run|
  {
    if run != [] {
      StrandedForGood(s, run[..|run| - 1], n);
      StepStrands(Exec(s, run[..|run| - 1]), run[|run| - 1], n);
    }
  }
}

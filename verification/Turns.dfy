/** An ingest run in closed form: what each file's turn does to the directories, the tables and the
    counters, and that the transition system's uninterrupted runs do exactly that. */
module Turns {
  import opened Collections
  import opened Rows
  import opened Spool
  import opened Outcomes

  datatype Shelf = Shelf(dirs: Dirs, tables: Tables, result: Counters)

  /** One listed file: gone, refused by the claim, or claimed and brought to its destination. */
  function Turn(h: Shelf, reg: Registry, n: Name, x: Trouble): Shelf {
    if n !in h.dirs.inbox then h.(result := Add(h.result, CountSkipped))
    else if x.claim != Fine then
      Shelf(if x.move then InboxToFailed(h.dirs, n) else h.dirs, h.tables, Add(h.result, CountFailed))
    else
      var v := Classify(h.dirs.inbox[n].content);
      Shelf(Placed(h.dirs, n, Destination(v, reg, x)), Tabled(h.tables, v, reg, x), Add(h.result, Counted(v, reg, x)))
  }

  function TurnAll(h: Shelf, reg: Registry, listing: seq<Name>, trouble: Name -> Trouble): Shelf
    decreases |listing|
  {
    if listing == [] then h
    else
      var n := listing[|listing| - 1];
      Turn(TurnAll(h, reg, listing[..|listing| - 1], trouble), reg, n, trouble(n))
  }

  lemma TurnAllNext(h: Shelf, reg: Registry, listing: seq<Name>, trouble: Name -> Trouble, k: nat)
    requires k < |listing|
    ensures TurnAll(h, reg, listing[..k + 1], trouble)
         == Turn(TurnAll(h, reg, listing[..k], trouble), reg, listing[k], trouble(listing[k]))
  {
    assert listing[..k + 1][..k] == listing[..k];
  }

  function Total(c: Counters): nat { c.processed + c.failed + c.skipped }

  lemma {:induction false} TurnsCount(h: Shelf, reg: Registry, listing: seq<Name>, trouble: Name -> Trouble)
    ensures Total(TurnAll(h, reg, listing, trouble).result) == Total(h.result) + |listing|
    decreases |listing|
  {
    if listing != [] {
      TurnsCount(h, reg, listing[..|listing| - 1], trouble);
    }
  }

  /** The counter a listed file adds to, judged by what was in spool/ when the run began. */
  function CountAt(inbox: Dir, reg: Registry, n: Name, x: Trouble): Count {
    if n !in inbox then CountSkipped
    else if x.claim != Fine then CountFailed
    else Counted(Classify(inbox[n].content), reg, x)
  }

  /** The listed files that add to a counter. */
  function CountedSo(inbox: Dir, reg: Registry, listing: seq<Name>, trouble: Name -> Trouble, k: Count): set<Name> {
    set n | n in listing && CountAt(inbox, reg, n, trouble(n)) == k
  }

  lemma {:induction false} OthersWait(h: Shelf, reg: Registry, listing: seq<Name>, trouble: Name -> Trouble, n: Name)
    requires n !in listing
    ensures var d := TurnAll(h, reg, listing, trouble).dirs.inbox;
            (n in d <==> n in h.dirs.inbox) && (n in d ==> d[n] == h.dirs.inbox[n])
    decreases |listing|
  {
    if listing != [] {
      OthersWait(h, reg, listing[..|listing| - 1], trouble, n);
    }
  }

  lemma CountedNext(inbox: Dir, reg: Registry, listing: seq<Name>, trouble: Name -> Trouble, k: Count)
    requires listing != [] && Distinct(listing)
    ensures var init, n := listing[..|listing| - 1], listing[|listing| - 1];
            |CountedSo(inbox, reg, listing, trouble, k)|
            == |CountedSo(inbox, reg, init, trouble, k)| + if CountAt(inbox, reg, n, trouble(n)) == k then 1 else 0
  {
    var init, n := listing[..|listing| - 1], listing[|listing| - 1];
    assert listing == init + [n] && n !in init;
    assert CountedSo(inbox, reg, listing, trouble, k)
        == CountedSo(inbox, reg, init, trouble, k) + if CountAt(inbox, reg, n, trouble(n)) == k then {n} else {};
  }

  /** Each counter is the number of listed files that end its way, and a lock is reported if and only if
      some file met one. */
  predicate CountersAre(r: Counters, inbox: Dir, reg: Registry, listing: seq<Name>, trouble: Name -> Trouble) {
    && r.processed == |CountedSo(inbox, reg, listing, trouble, CountProcessed)|
    && r.failed == |CountedSo(inbox, reg, listing, trouble, CountFailed)|
    && r.skipped == |CountedSo(inbox, reg, listing, trouble, CountSkipped)|
                    + |CountedSo(inbox, reg, listing, trouble, CountLocked)|
    && (r.lockError <==> |CountedSo(inbox, reg, listing, trouble, CountLocked)| > 0)
  }

  lemma OneMoreCounted(r: Counters, inbox: Dir, reg: Registry, listing: seq<Name>, trouble: Name -> Trouble)
    requires listing != [] && Distinct(listing) && CountersAre(r, inbox, reg, listing[..|listing| - 1], trouble)
    ensures var n := listing[|listing| - 1];
            CountersAre(Add(r, CountAt(inbox, reg, n, trouble(n))), inbox, reg, listing, trouble)
  {
    CountedNext(inbox, reg, listing, trouble, CountProcessed);
    CountedNext(inbox, reg, listing, trouble, CountFailed);
    CountedNext(inbox, reg, listing, trouble, CountSkipped);
    CountedNext(inbox, reg, listing, trouble, CountLocked);
  }

  lemma TurnAdds(h: Shelf, g: Shelf, reg: Registry, n: Name, x: Trouble)
    requires n in g.dirs.inbox <==> n in h.dirs.inbox
    requires n in g.dirs.inbox ==> g.dirs.inbox[n] == h.dirs.inbox[n]
    ensures Turn(g, reg, n, x).result == Add(g.result, CountAt(h.dirs.inbox, reg, n, x))
  {
  }

  lemma {:induction false} CountersExact(h: Shelf, reg: Registry, listing: seq<Name>, trouble: Name -> Trouble)
    requires Distinct(listing) && h.result == ZERO
    ensures CountersAre(TurnAll(h, reg, listing, trouble).result, h.dirs.inbox, reg, listing, trouble)
    decreases |listing|
  {
    if listing == [] {
      NoneCounted(h.dirs.inbox, reg, trouble);
    } else {
      var init, n := listing[..|listing| - 1], listing[|listing| - 1];
      var g := TurnAll(h, reg, init, trouble);
      CountersExact(h, reg, init, trouble);
      OthersWait(h, reg, init, trouble, n);
      TurnAdds(h, g, reg, n, trouble(n));
      OneMoreCounted(g.result, h.dirs.inbox, reg, listing, trouble);
    }
  }

  lemma NoneCounted(inbox: Dir, reg: Registry, trouble: Name -> Trouble)
    ensures CountersAre(ZERO, inbox, reg, [], trouble)
  {
    assert forall k :: CountedSo(inbox, reg, [], trouble, k) == {};
  }

  /** The whole run as actions: list, one round per file, exit. */
  function Rounds(w: nat, listing: seq<Name>, trouble: Name -> Trouble): seq<Action> {
    if listing == [] then []
    else Rounds(w, listing[..|listing| - 1], trouble) + Round(w, trouble(listing[|listing| - 1]))
  }

  function IngestRun(w: nat, listing: seq<Name>, trouble: Name -> Trouble): seq<Action> {
    [Begin(w, listing)] + Rounds(w, listing, trouble) + [Die(w)]
  }

  /** The state while run w has the files `todo` still to do. */
  function During(s: State, w: nat, todo: seq<Name>, listed: nat, h: Shelf): State {
    s.(dirs := h.dirs, tables := h.tables, workers := s.workers[w := Worker(todo, Next, h.result, listed)])
  }

  lemma RoundIsTurn(s: State, w: nat, todo: seq<Name>, listed: nat, h: Shelf, x: Trouble)
    requires todo != []
    ensures Exec(During(s, w, todo, listed, h), Round(w, x))
         == During(s, w, todo[1..], listed, Turn(h, s.reg, todo[0], x))
  {
    var d := During(s, w, todo, listed, h);
    var n := todo[0];
    var wk := d.workers[w].(todo := todo[1..]);
    var h' := Turn(h, s.reg, n, x);
    if n in h.dirs.inbox && x.claim == Fine {
      ExactOutcome(d, w, x, n);
    } else {
      ClaimOutcome(d, w, x, n);
    }
    SetTwice(s.(dirs := h'.dirs, tables := h'.tables), w, d.workers[w], wk.(pc := Next, result := h'.result));
  }

  lemma {:induction false} RoundsAreTurns(s: State, w: nat, listing: seq<Name>, trouble: Name -> Trouble, k: nat,
                                          h: Shelf)
    requires k <= |listing|
    ensures Exec(During(s, w, listing, |listing|, h), Rounds(w, listing[..k], trouble))
         == During(s, w, listing[k..], |listing|, TurnAll(h, s.reg, listing[..k], trouble))
  {
    if k == 0 {
      assert listing[0..] == listing && listing[..0] == [];
    } else {
      RoundsAreTurns(s, w, listing, trouble, k - 1, h);
      var n := listing[k - 1];
      assert listing[..k][..k - 1] == listing[..k - 1];
      ExecConcat(During(s, w, listing, |listing|, h), Rounds(w, listing[..k - 1], trouble), Round(w, trouble(n)));
      RoundIsTurn(s, w, listing[k - 1..], |listing|, TurnAll(h, s.reg, listing[..k - 1], trouble), trouble(n));
      assert listing[k - 1..][1..] == listing[k..];
    }
  }

  /** An uninterrupted ingest run of the transition system is its turns, one after the other. */
  lemma IngestIsARun(s: State, w: nat, listing: seq<Name>, trouble: Name -> Trouble)
    requires w !in s.workers && Distinct(listing)
    ensures var h := TurnAll(Shelf(s.dirs, s.tables, ZERO), s.reg, listing, trouble);
            Exec(s, IngestRun(w, listing, trouble)) == s.(dirs := h.dirs, tables := h.tables)
  {
    var h0 := Shelf(s.dirs, s.tables, ZERO);
    var h := TurnAll(h0, s.reg, listing, trouble);
    ExecThree(s, [Begin(w, listing)], Rounds(w, listing, trouble), [Die(w)]);
    Started(s, w, listing);
    AllTurns(s, w, listing, trouble, h0);
    Exited(s, w, |listing|, h);
  }

  lemma AllTurns(s: State, w: nat, listing: seq<Name>, trouble: Name -> Trouble, h: Shelf)
    ensures Exec(During(s, w, listing, |listing|, h), Rounds(w, listing, trouble))
         == During(s, w, [], |listing|, TurnAll(h, s.reg, listing, trouble))
  {
    RoundsAreTurns(s, w, listing, trouble, |listing|, h);
    assert listing[..|listing|] == listing && listing[|listing|..] == [];
  }

  lemma Started(s: State, w: nat, listing: seq<Name>)
    requires w !in s.workers && Distinct(listing)
    ensures Exec(s, [Begin(w, listing)]) == During(s, w, listing, |listing|, Shelf(s.dirs, s.tables, ZERO))
  {
    ExecOne(s, Begin(w, listing));
  }

  lemma Exited(s: State, w: nat, listed: nat, h: Shelf)
    requires w !in s.workers
    ensures Exec(During(s, w, [], listed, h), [Die(w)]) == s.(dirs := h.dirs, tables := h.tables)
  {
    ExecOne(During(s, w, [], listed, h), Die(w));
    assert During(s, w, [], listed, h).workers - {w} == s.workers;
  }
}

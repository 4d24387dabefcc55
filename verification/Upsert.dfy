/** The two conflict rules of the analytics import: first accepted row wins in the append-only event
    tables, last value wins column by column in the keyed tables. */
module Upsert {
  import opened Documents
  import opened Collections

  datatype Table =
    | BusinessProjects | ValidationResults | SecurityEvents
    | TokenUsageRecords | AiUsageRecords | ReadinessEvents

  type Column = string

  type Cells = map<Column, Json>

  /** A row on its way into a table, with the columns the table has; `id` is its key. */
  datatype Item = Item(table: Table, id: Json, cells: Cells)

  datatype Place = Place(table: Table, id: Json)

  /** Each table is a map from key to row. */
  type Database = map<Place, Cells>

  predicate AppendOnly(t: Table) { t.SecurityEvents? || t.ReadinessEvents? }

  function KeyColumn(t: Table): Column {
    match t
    case BusinessProjects => "project_id"
    case ValidationResults => "validation_id"
    case SecurityEvents => "event_id"
    case TokenUsageRecords => "token_usage_id"
    case AiUsageRecords => "usage_record_id"
    case ReadinessEvents => "event_id"
  }

  /** The item as the source's row dictionary gives it, restricted to the table's columns. */
  function Filtered(columns: set<Column>, t: Table, row: Cells): Item {
    Item(t, if KeyColumn(t) in row then row[KeyColumn(t)] else Null, map c | c in row && c in columns :: row[c])
  }

  function At(db: Database, p: Place): Option<Cells> {
    if p in db then Some(db[p]) else None
  }

  function PlaceOf(i: Item): Place { Place(i.table, i.id) }

  /** An update needs a column besides the key. */
  predicate Updates(i: Item) {
    exists c :: c in i.cells && c != KeyColumn(i.table)
  }

  /** SQLite binds scalars and null; a list or an object raises, whatever the conflict rule. */
  predicate Bindable(cells: Cells) {
    forall c :: c in cells ==> !cells[c].Arr? && !cells[c].Obj?
  }

  /** `accepts`: the table's constraints admit the row.  None: the database raises. */
  function Upserted(db: Database, i: Item, accepts: Item -> bool): Option<Database> {
    var p := PlaceOf(i);
    if i.cells == map[] then Some(db)
    else if !Bindable(i.cells) then None
    else if AppendOnly(i.table) then Some(if p in db || !accepts(i) then db else db[p := i.cells])
    else if !accepts(i) then None
    else if p !in db then Some(db[p := i.cells])
    else if Updates(i) then Some(db[p := db[p] + i.cells])
    else None
  }

  function UpsertAll(db: Database, items: seq<Item>, accepts: Item -> bool): Option<Database>
    decreases |items|
  {
    if items == [] then Some(db)
    else
      var d := UpsertAll(db, items[..|items| - 1], accepts);
      if d.None? then None else Upserted(d.value, items[|items| - 1], accepts)
  }

  // ---------------------------------------------------------------- what a run leaves at a key

  /** The first row the append-only table takes. */
  function FirstAccepted(items: seq<Item>, p: Place, accepts: Item -> bool): Option<Cells>
    decreases |items|
  {
    if items == [] then None
    else
      var before, i := FirstAccepted(items[..|items| - 1], p, accepts), items[|items| - 1];
      if before.Some? then before
      else if PlaceOf(i) == p && i.cells != map[] && accepts(i) then Some(i.cells)
      else None
  }

  predicate Mentioned(items: seq<Item>, p: Place) {
    exists k :: 0 <= k < |items| && PlaceOf(items[k]) == p && items[k].cells != map[]
  }

  lemma {:induction false} FirstAcceptedIs(items: seq<Item>, p: Place, accepts: Item -> bool, k: nat)
    requires k < |items| && PlaceOf(items[k]) == p && items[k].cells != map[] && accepts(items[k])
    requires forall j :: 0 <= j < k ==> PlaceOf(items[j]) != p
    ensures FirstAccepted(items, p, accepts) == Some(items[k].cells)
    decreases |items|
  {
    if k < |items| - 1 {
      FirstAcceptedIs(items[..|items| - 1], p, accepts, k);
    } else {
      NoneAccepted(items[..k], p, accepts);
    }
  }

  lemma {:induction false} NoneAccepted(items: seq<Item>, p: Place, accepts: Item -> bool)
    requires forall j :: 0 <= j < |items| ==> PlaceOf(items[j]) != p
    ensures FirstAccepted(items, p, accepts).None?
    decreases |items|
  {
    if items != [] {
      NoneAccepted(items[..|items| - 1], p, accepts);
    }
  }

  /** Column by column, the last value given for the key. */
  function Overlay(items: seq<Item>, p: Place): Cells
    decreases |items|
  {
    if items == [] then map[]
    else
      var before, i := Overlay(items[..|items| - 1], p), items[|items| - 1];
      if PlaceOf(i) == p then before + i.cells else before
  }

  function Final(start: Option<Cells>, items: seq<Item>, p: Place, accepts: Item -> bool): Option<Cells> {
    if AppendOnly(p.table) then (if start.Some? then start else FirstAccepted(items, p, accepts))
    else if !Mentioned(items, p) then start
    else Some((if start.Some? then start.value else map[]) + Overlay(items, p))
  }

  lemma MentionedLast(items: seq<Item>, p: Place)
    requires items != []
    ensures var init, i := items[..|items| - 1], items[|items| - 1];
            Mentioned(items, p) <==> Mentioned(init, p) || (PlaceOf(i) == p && i.cells != map[])
  {
  }

  lemma {:induction false} UnmentionedOverlay(items: seq<Item>, p: Place)
    requires !Mentioned(items, p)
    ensures Overlay(items, p) == map[]
  {
    if items != [] {
      MentionedLast(items, p);
      UnmentionedOverlay(items[..|items| - 1], p);
    }
  }

  lemma StepFinal(db: Database, d: Database, d': Database, items: seq<Item>, p: Place, accepts: Item -> bool)
    requires items != [] && Upserted(d, items[|items| - 1], accepts) == Some(d')
    requires At(d, p) == Final(At(db, p), items[..|items| - 1], p, accepts)
    ensures At(d', p) == Final(At(db, p), items, p, accepts)
  {
    var init, i := items[..|items| - 1], items[|items| - 1];
    MentionedLast(items, p);
    if PlaceOf(i) == p && !AppendOnly(p.table) && i.cells != map[] {
      KeyedStep(At(db, p), init, i, p, accepts);
    }
    assert Overlay(init, p) + map[] == Overlay(init, p) && map[] + i.cells == i.cells;
  }

  /** One more row for the key of a keyed table. */
  lemma KeyedStep(start: Option<Cells>, init: seq<Item>, i: Item, p: Place, accepts: Item -> bool)
    requires !AppendOnly(p.table) && PlaceOf(i) == p
    ensures var f := Final(start, init, p, accepts);
            var base := if start.Some? then start.value else map[];
            (if f.Some? then f.value else map[]) + i.cells == base + (Overlay(init, p) + i.cells)
  {
  }

  lemma {:induction false} FinalIs(db: Database, items: seq<Item>, p: Place, accepts: Item -> bool)
    requires UpsertAll(db, items, accepts).Some?
    ensures At(UpsertAll(db, items, accepts).value, p) == Final(At(db, p), items, p, accepts)
    decreases |items|
  {
    if items != [] {
      var d := UpsertAll(db, items[..|items| - 1], accepts).value;
      FinalIs(db, items[..|items| - 1], p, accepts);
      StepFinal(db, d, UpsertAll(db, items, accepts).value, items, p, accepts);
    }
  }

  /** The overlay holds each column's last value. */
  lemma {:induction false} OverlayIsLast(items: seq<Item>, p: Place, k: nat, c: Column)
    requires k < |items| && PlaceOf(items[k]) == p && c in items[k].cells
    requires forall j :: k < j < |items| && PlaceOf(items[j]) == p ==> c !in items[j].cells
    ensures c in Overlay(items, p) && Overlay(items, p)[c] == items[k].cells[c]
    decreases |items|
  {
    if k < |items| - 1 {
      OverlayIsLast(items[..|items| - 1], p, k, c);
    }
  }

  // ---------------------------------------------------------------- the two rules, table by table

  /** The item is a row for the place. */
  predicate Gives(i: Item, p: Place) { i.table == p.table && i.id == p.id && i.cells != map[] }

  predicate SetsColumn(i: Item, p: Place, c: Column) { i.table == p.table && i.id == p.id && c in i.cells }

  /** Item k is the first for the place that the table takes. */
  predicate FirstTaken(items: seq<Item>, p: Place, accepts: Item -> bool, k: nat)
    requires k < |items|
  {
    Gives(items[k], p) && accepts(items[k]) && forall j :: 0 <= j < k && Gives(items[j], p) ==> !accepts(items[j])
  }

  /** The row that was there stays, or else the first one taken; if none is taken there is none. */
  ghost predicate FirstStays(start: Option<Cells>, items: seq<Item>, p: Place, accepts: Item -> bool, end: Option<Cells>)
  {
    && (start.Some? ==> end == start)
    && (start.None? && end.Some? ==>
          exists k :: 0 <= k < |items| && FirstTaken(items, p, accepts, k) && end.value == items[k].cells)
    && (start.None? && end.None? ==> forall k :: 0 <= k < |items| && Gives(items[k], p) ==> !accepts(items[k]))
  }

  /** Item k is the last that gives the column a value. */
  predicate LastSetter(items: seq<Item>, p: Place, c: Column, k: nat)
    requires k < |items|
  {
    SetsColumn(items[k], p, c) && forall j :: k < j < |items| ==> !SetsColumn(items[j], p, c)
  }

  /** The column holds the last value given, or else what it held before, if anything. */
  ghost predicate HoldsLast(before: Cells, items: seq<Item>, p: Place, after: Cells, c: Column) {
    || (exists k :: 0 <= k < |items| && LastSetter(items, p, c, k) && c in after && after[c] == items[k].cells[c])
    || ((forall k :: 0 <= k < |items| ==> !SetsColumn(items[k], p, c))
        && (c in after <==> c in before) && (c in after ==> after[c] == before[c]))
  }

  /** A row is there if it was or one was given, and every column of it holds its last value. */
  ghost predicate LastStays(start: Option<Cells>, items: seq<Item>, p: Place, end: Option<Cells>) {
    var before := if start.Some? then start.value else map[];
    && (end.Some? <==> start.Some? || exists k :: 0 <= k < |items| && Gives(items[k], p))
    && (end.Some? ==> forall c :: HoldsLast(before, items, p, end.value, c))
  }

  /** At a place of the two event tables the first row stays; at a place of the other four each column
      holds its last value. */
  ghost predicate EndsAs(db: Database, items: seq<Item>, accepts: Item -> bool, d: Database, p: Place) {
    match p.table
    case SecurityEvents => FirstStays(At(db, p), items, p, accepts, At(d, p))
    case ReadinessEvents => FirstStays(At(db, p), items, p, accepts, At(d, p))
    case BusinessProjects => LastStays(At(db, p), items, p, At(d, p))
    case ValidationResults => LastStays(At(db, p), items, p, At(d, p))
    case TokenUsageRecords => LastStays(At(db, p), items, p, At(d, p))
    case AiUsageRecords => LastStays(At(db, p), items, p, At(d, p))
  }

  lemma {:induction false} FirstAcceptedStays(items: seq<Item>, p: Place, accepts: Item -> bool)
    ensures FirstStays(None, items, p, accepts, FirstAccepted(items, p, accepts))
    decreases |items|
  {
    if items != [] {
      var init, k := items[..|items| - 1], |items| - 1;
      FirstAcceptedStays(init, p, accepts);
      if FirstAccepted(init, p, accepts).Some? {
        var j :| 0 <= j < |init| && FirstTaken(init, p, accepts, j)
                 && FirstAccepted(init, p, accepts).value == init[j].cells;
        assert FirstTaken(items, p, accepts, j);
      } else {
        assert forall j :: 0 <= j < k && Gives(items[j], p) ==> init[j] == items[j] && !accepts(items[j]);
        assert Gives(items[k], p) && accepts(items[k]) ==> FirstTaken(items, p, accepts, k);
      }
    }
  }

  lemma {:induction false} OverlayHoldsLast(before: Cells, items: seq<Item>, p: Place, c: Column)
    ensures HoldsLast(before, items, p, before + Overlay(items, p), c)
    decreases |items|
  {
    if items != [] {
      var init, k := items[..|items| - 1], |items| - 1;
      OverlayHoldsLast(before, init, p, c);
      if SetsColumn(items[k], p, c) {
        assert LastSetter(items, p, c, k);
      } else if j :| 0 <= j < |init| && LastSetter(init, p, c, j) && c in before + Overlay(init, p)
                     && (before + Overlay(init, p))[c] == init[j].cells[c] {
        assert LastSetter(items, p, c, j);
      }
    }
  }

  /** What a run that does not raise leaves at every key: in the two event tables the row that was there or
      else the first accepted; in the four keyed tables, column by column, the last value given. */
  lemma FinalRow(db: Database, items: seq<Item>, p: Place, accepts: Item -> bool)
    requires UpsertAll(db, items, accepts).Some?
    ensures EndsAs(db, items, accepts, UpsertAll(db, items, accepts).value, p)
  {
    FinalIs(db, items, p, accepts);
    if p.table.SecurityEvents? || p.table.ReadinessEvents? {
      FirstAcceptedStays(items, p, accepts);
    } else {
      KeyedEnds(At(db, p), items, p, accepts);
    }
  }

  lemma OneUpsertEnds(db: Database, i: Item, accepts: Item -> bool)
    ensures Upserted(db, i, accepts).Some? ==>
              forall p :: EndsAs(db, [i], accepts, Upserted(db, i, accepts).value, p)
  {
    assert [i][..0] == [] && UpsertAll(db, [], accepts) == Some(db);
    if UpsertAll(db, [i], accepts).Some? {
      forall p ensures EndsAs(db, [i], accepts, Upserted(db, i, accepts).value, p) {
        FinalRow(db, [i], p, accepts);
      }
    }
  }

  lemma KeyedEnds(start: Option<Cells>, items: seq<Item>, p: Place, accepts: Item -> bool)
    requires !p.table.SecurityEvents? && !p.table.ReadinessEvents?
    ensures LastStays(start, items, p, Final(start, items, p, accepts))
  {
    var before := if start.Some? then start.value else map[];
    forall c ensures HoldsLast(before, items, p, before + Overlay(items, p), c) {
      OverlayHoldsLast(before, items, p, c);
    }
    assert forall k :: 0 <= k < |items| ==> (Gives(items[k], p) <==> PlaceOf(items[k]) == p && items[k].cells != map[]);
    if !Mentioned(items, p) {
      UnmentionedOverlay(items, p);
      assert before + map[] == before;
    }
  }

  /** Records of one shape: the last one for a key is what the key holds. */
  lemma LastRecordWins(db: Database, items: seq<Item>, k: nat, accepts: Item -> bool)
    requires UpsertAll(db, items, accepts).Some? && k < |items| && items[k].cells != map[]
             && !AppendOnly(items[k].table)
    requires forall j :: k < j < |items| ==> PlaceOf(items[j]) != PlaceOf(items[k])
    ensures var p, d := PlaceOf(items[k]), UpsertAll(db, items, accepts).value;
            p in d && forall c :: c in items[k].cells ==> c in d[p] && d[p][c] == items[k].cells[c]
  {
  }

  // ---------------------------------------------------------------- replay

  /** A row of a keyed table that has any column at all. */
  predicate Keyed(i: Item) { !AppendOnly(i.table) && i.cells != map[] }

  /** The database takes the row: it can be bound and, in a keyed table, its constraints admit it. */
  predicate Takes(i: Item, accepts: Item -> bool) {
    i.cells != map[] ==> Bindable(i.cells) && (Keyed(i) ==> accepts(i))
  }

  predicate AllAccepted(items: seq<Item>, accepts: Item -> bool) {
    forall k :: 0 <= k < |items| ==> Takes(items[k], accepts)
  }

  /** A row of a keyed table that is nothing but its key. */
  predicate BareKey(i: Item) {
    match i.table
    case BusinessProjects => i.cells.Keys == {"project_id"}
    case ValidationResults => i.cells.Keys == {"validation_id"}
    case TokenUsageRecords => i.cells.Keys == {"token_usage_id"}
    case AiUsageRecords => i.cells.Keys == {"usage_record_id"}
    case SecurityEvents => false
    case ReadinessEvents => false
  }

  lemma BareKeyIs(i: Item)
    ensures BareKey(i) <==> Keyed(i) && !Updates(i)
  {
    if Keyed(i) && !Updates(i) {
      assert forall c :: c in i.cells.Keys ==> c == KeyColumn(i.table);
      assert i.cells.Keys != {};
      assert i.cells.Keys == {KeyColumn(i.table)};
    }
  }

  predicate NoBareKeys(items: seq<Item>) {
    forall k :: 0 <= k < |items| ==> !BareKey(items[k])
  }

  /** When one row raises: a list or an object in it, constraints that refuse it in a keyed table, or a bare
      key that is there. */
  lemma UpsertRaises(db: Database, i: Item, accepts: Item -> bool)
    ensures Upserted(db, i, accepts).None? <==>
            && i.cells != map[]
            && (|| (exists c :: c in i.cells && (i.cells[c].Arr? || i.cells[c].Obj?))
                || (!i.table.SecurityEvents? && !i.table.ReadinessEvents? && !accepts(i))
                || (BareKey(i) && Place(i.table, i.id) in db))
  {
    BareKeyIs(i);
  }

  lemma {:induction false} AcceptedRuns(db: Database, items: seq<Item>, accepts: Item -> bool)
    requires AllAccepted(items, accepts) && NoBareKeys(items)
    ensures UpsertAll(db, items, accepts).Some?
    decreases |items|
  {
    if items != [] {
      AcceptedRuns(db, items[..|items| - 1], accepts);
      var i := items[|items| - 1];
      BareKeyIs(i);
      assert Takes(i, accepts) && !BareKey(i);
    }
  }

  lemma {:induction false} RunsAreAccepted(db: Database, items: seq<Item>, accepts: Item -> bool)
    requires UpsertAll(db, items, accepts).Some?
    ensures AllAccepted(items, accepts)
    decreases |items|
  {
    if items != [] {
      RunsAreAccepted(db, items[..|items| - 1], accepts);
      forall k | 0 <= k < |items| ensures Takes(items[k], accepts) {
        assert k < |items| - 1 ==> items[k] == items[..|items| - 1][k];
      }
    }
  }

  /** A bare key that is already there raises. */
  lemma {:induction false} BareKeyRaises(db: Database, items: seq<Item>, accepts: Item -> bool, k: nat)
    requires k < |items| && BareKey(items[k]) && PlaceOf(items[k]) in db
    ensures UpsertAll(db, items, accepts).None?
    decreases |items|
  {
    var init := items[..|items| - 1];
    BareKeyIs(items[k]);
    if k < |init| {
      BareKeyRaises(db, init, accepts, k);
    } else if UpsertAll(db, init, accepts).Some? {
      var p := PlaceOf(items[k]);
      FinalIs(db, init, p, accepts);
      assert At(UpsertAll(db, init, accepts).value, p).Some?;
    }
  }

  lemma FinalTwice(start: Option<Cells>, items: seq<Item>, p: Place, accepts: Item -> bool)
    ensures var once := Final(start, items, p, accepts); Final(once, items, p, accepts) == once
  {
    var base := if start.Some? then start.value else map[];
    assert base + Overlay(items, p) + Overlay(items, p) == base + Overlay(items, p);
  }

  lemma SameEverywhere(a: Database, b: Database)
    requires forall p :: At(a, p) == At(b, p)
    ensures a == b
  {
    forall p ensures (p in a <==> p in b) && (p in a && p in b ==> a[p] == b[p]) {
      assert At(a, p) == At(b, p);
    }
  }

  /** Whatever import goes through once goes through again exactly when no keyed row is a bare key,
      and the second time changes nothing. */
  lemma ReplayIdempotent(db: Database, items: seq<Item>, accepts: Item -> bool)
    requires UpsertAll(db, items, accepts).Some?
    ensures var once := UpsertAll(db, items, accepts);
            var twice := UpsertAll(once.value, items, accepts);
            (twice.Some? <==> NoBareKeys(items)) && (twice.Some? ==> twice == once)
  {
    var once := UpsertAll(db, items, accepts).value;
    RunsAreAccepted(db, items, accepts);
    if NoBareKeys(items) {
      AcceptedRuns(once, items, accepts);
      ReplayChangesNothing(db, items, accepts);
    } else {
      var k :| 0 <= k < |items| && BareKey(items[k]);
      var p := PlaceOf(items[k]);
      BareKeyIs(items[k]);
      FinalIs(db, items, p, accepts);
      assert Mentioned(items, p);
      assert At(once, p).Some?;
      BareKeyRaises(once, items, accepts, k);
    }
  }

  lemma ReplayChangesNothing(db: Database, items: seq<Item>, accepts: Item -> bool)
    requires UpsertAll(db, items, accepts).Some? && UpsertAll(UpsertAll(db, items, accepts).value, items, accepts).Some?
    ensures UpsertAll(UpsertAll(db, items, accepts).value, items, accepts) == UpsertAll(db, items, accepts)
  {
    var once := UpsertAll(db, items, accepts).value;
    var twice := UpsertAll(once, items, accepts).value;
    forall p ensures At(twice, p) == At(once, p) {
      FinalIs(db, items, p, accepts);
      FinalIs(once, items, p, accepts);
      FinalTwice(At(db, p), items, p, accepts);
    }
    SameEverywhere(twice, once);
  }
}
